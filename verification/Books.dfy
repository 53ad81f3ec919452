/** What the tables and the journal must agree on after every committed unit of
    work, and the sums that state it. */
module Books {
  import opened Money
  import opened Ledger
  import opened Orders
  import opened Postings
  import opened Settlements
  import R = Refunds

  // ---- sums over rows ----------------------------------------------------------

  /** What captures credited to a seller. */
  function NetsOf(ord: Order, s: nat): int {
    if Captured(ord.status) then OwedTo(ord.items, s) else 0
  }

  function CapturedNets(orders: seq<Order>, s: nat): int {
    if orders == [] then 0 else CapturedNets(orders[..|orders| - 1], s) + NetsOf(orders[|orders| - 1], s)
  }

  /** What one release took out of a seller's payable account. */
  function ReleaseDebit(r: ReleaseRow): int {
    r.reserve + (r.applied - r.replayed) + Positive(r.net)
  }

  function Released(rows: seq<ReleaseRow>, s: nat): int {
    if rows == [] then 0 else
    var r := rows[|rows| - 1];
    Released(rows[..|rows| - 1], s) + if r.seller == s then ReleaseDebit(r) else 0
  }

  function Reserved(rows: seq<ReleaseRow>, s: nat): int {
    if rows == [] then 0 else
    var r := rows[|rows| - 1];
    Reserved(rows[..|rows| - 1], s) + if r.seller == s then r.reserve else 0
  }

  /** Recoveries netted off a settlement without a posting. */
  function Replayed(rows: seq<ReleaseRow>): int {
    if rows == [] then 0 else Replayed(rows[..|rows| - 1]) + rows[|rows| - 1].replayed
  }

  /** Refund shares taken from a seller before settlement. */
  function Reversals(rows: seq<RefundRow>, s: nat): int {
    if rows == [] then 0 else
    var r := rows[|rows| - 1];
    Reversals(rows[..|rows| - 1], s) + if r.seller == s && !r.settledAway then r.share else 0
  }

  /** Charged-back nets taken from a seller before settlement. */
  function Lost(rows: seq<LossRow>, s: nat): int {
    if rows == [] then 0 else
    var r := rows[|rows| - 1];
    Lost(rows[..|rows| - 1], s) + if r.seller == s && !r.settledAway && r.posted then r.net else 0
  }

  /** Charged-back nets recorded for recovery by a dispute whose entry was
      already posted. */
  function Unposted(rows: seq<LossRow>): int {
    if rows == [] then 0 else
    var r := rows[|rows| - 1];
    Unposted(rows[..|rows| - 1]) + if r.settledAway && !r.posted then r.net else 0
  }

  lemma ReleaseAppended(rows: seq<ReleaseRow>, r: ReleaseRow)
    ensures forall s :: Released(rows + [r], s) == Released(rows, s) + if r.seller == s then ReleaseDebit(r) else 0
    ensures forall s :: Reserved(rows + [r], s) == Reserved(rows, s) + if r.seller == s then r.reserve else 0
    ensures Replayed(rows + [r]) == Replayed(rows) + r.replayed
  {
    assert (rows + [r])[..|rows|] == rows;
  }

  lemma RefundAppended(rows: seq<RefundRow>, r: RefundRow)
    ensures forall s :: Reversals(rows + [r], s) == Reversals(rows, s) + if r.seller == s
            && !r.settledAway then r.share else 0
  {
    assert (rows + [r])[..|rows|] == rows;
  }

  lemma {:induction false} LossesAppended(rows: seq<LossRow>, more: seq<LossRow>)
    ensures forall s :: Lost(rows + more, s) == Lost(rows, s) + Lost(more, s)
    ensures Unposted(rows + more) == Unposted(rows) + Unposted(more)
  {
    if more == [] {
      assert rows + more == rows;
    } else {
      var init := more[..|more| - 1];
      LossesAppended(rows, init);
      assert (rows + more)[..|rows + more| - 1] == rows + init;
    }
  }

  // ---- one order ---------------------------------------------------------------

  predicate OpenTransfer(it: Item) {
    it.transfer.Some? && it.transfer.value.status in {Pending, OnHold}
  }

  predicate Untouched(it: Item) {
    it.refunded == 0 && it.licence == None && it.transfer == None
  }

  /** A captured item has its one licence, and a transfer of its net if it has any. */
  predicate Delivered(it: Item) {
    && it.licence.Some?
    && (it.transfer.Some? <==> it.bd.sellerNet > 0)
    && (it.transfer.Some? ==> it.transfer.value.amount == it.bd.sellerNet)
  }

  predicate OrderOk(ord: Order) {
    && ItemsOk(ord.items)
    && ord.grandTotal == SumOf(ord.items, BuyerTotal) <= STORE_MAX
    && ord.refunded == SumOf(ord.items, RefundedSoFar)
    && (Captured(ord.status) ==> ord.grandTotal > 0 && BorneBySellers(ord.items) == 0)
    && (ord.status == Refunded <==> Captured(ord.status) && ord.refunded == ord.grandTotal)
    && forall i :: 0 <= i < |ord.items| ==>
         if Captured(ord.status) then Delivered(ord.items[i]) else Untouched(ord.items[i])
  }

  predicate OrdersOk(orders: seq<Order>) {
    forall o :: 0 <= o < |orders| ==> OrderOk(orders[o])
  }

  // ---- keys --------------------------------------------------------------------

  /** An idempotency key in the journal implies the row it was posted for. */
  predicate KeyOk(db: Db, k: Key) {
    match k
    case CaptureKey(o, _) => o < |db.orders| && Captured(db.orders[o].status)
    case PspFeeKey(o, _) => o < |db.orders| && Captured(db.orders[o].status)
    case RefundKey(r) => r < |db.refunds|
    case ChargebackKey(_) => true
    case ReserveKey(o, i) =>
      && o < |db.orders| && i < |db.orders[o].items|
      && db.orders[o].items[i].transfer.Some? && !OpenTransfer(db.orders[o].items[i])
    case SettleKey(o, i) =>
      && o < |db.orders| && i < |db.orders[o].items|
      && db.orders[o].items[i].transfer.Some? && !OpenTransfer(db.orders[o].items[i])
    case OffsetKey(f, _) => f < |db.offsets|
  }

  ghost predicate KeysOk(db: Db) {
    forall k :: HasKey(db.journal, k) ==> KeyOk(db, k)
  }

  /** Exactly one capture entry for each captured order, debiting its grand total. */
  predicate CaptureOk(j: seq<Entry>, o: nat, orders: seq<Order>) {
    if o < |orders| && Captured(orders[o].status)
    then |CapturesOf(j, o)| == 1 && Total(CapturesOf(j, o)[0].lines, Debit) == orders[o].grandTotal
    else CapturesOf(j, o) == []
  }

  ghost predicate CapturesOk(db: Db) {
    forall o: nat :: CaptureOk(db.journal, o, db.orders)
  }

  // ---- rows --------------------------------------------------------------------

  /** The amounts refunded on one item, oldest first. */
  function AmountsOn(rows: seq<RefundRow>, o: nat, i: nat): seq<int> {
    if rows == [] then [] else
    var r := rows[|rows| - 1];
    AmountsOn(rows[..|rows| - 1], o, i) + if r.order == o && r.item == i then [r.amount] else []
  }

  predicate RefundRowOk(orders: seq<Order>, r: RefundRow) {
    && r.order < |orders| && r.item < |orders[r.order].items|
    && r.seller == orders[r.order].items[r.item].seller
    && 0 < r.amount <= orders[r.order].items[r.item].bd.buyerTotal
    && r.share == ShareOf(orders[r.order].items[r.item], SellerNet, r.amount)
  }

  predicate RefundsOk(orders: seq<Order>, rows: seq<RefundRow>) {
    && (forall n :: 0 <= n < |rows| ==> RefundRowOk(orders, rows[n]))
    && forall o, i :: 0 <= o < |orders| && 0 <= i < |orders[o].items| ==>
                        orders[o].items[i].refunded == R.SumAmounts(AmountsOn(rows, o, i))
  }

  predicate ReleaseRowOk(orders: seq<Order>, r: ReleaseRow) {
    && r.order < |orders| && r.item < |orders[r.order].items|
    && var it := orders[r.order].items[r.item];
    && it.seller == r.seller && it.transfer.Some? && !OpenTransfer(it) && r.gross == it.bd.sellerNet
    && r.gross == r.reserve + r.applied + r.net
    && r.reserve >= 0 && 0 <= r.replayed <= r.applied
  }

  predicate ReleasesOk(orders: seq<Order>, rows: seq<ReleaseRow>) {
    && (forall n :: 0 <= n < |rows| ==> ReleaseRowOk(orders, rows[n]))
    && forall m, n :: 0 <= m < n < |rows| ==> (rows[m].order, rows[m].item) != (rows[n].order, rows[n].item)
  }

  // ---- balances ----------------------------------------------------------------

  predicate ReceivableOk(db: Db) {
    Balance(db.journal, SellerOffset) == OwingTotal(db.offsets) + Replayed(db.releases) - Unposted(db.losses)
  }

  function PayableOf(db: Db, s: nat): int {
    CapturedNets(db.orders, s) - Released(db.releases, s) - Reversals(db.refunds, s) - Lost(db.losses, s)
  }

  ghost predicate PayablesOk(db: Db) {
    forall s: nat :: Balance(db.journal, Payable(s)) == -PayableOf(db, s)
  }

  ghost predicate ReservesOk(db: Db) {
    forall s: nat :: Balance(db.journal, Reserve(s)) == -Reserved(db.releases, s)
  }

  ghost predicate Inv(db: Db) {
    && Sound(db.journal)
    && OrdersOk(db.orders)
    && KeysOk(db)
    && CapturesOk(db)
    && SaneOffsets(db.offsets)
    && RefundsOk(db.orders, db.refunds)
    && ReleasesOk(db.orders, db.releases)
    && ReceivableOk(db) && PayablesOk(db) && ReservesOk(db)
  }

  // ---- how an order may change ---------------------------------------------------

  /** What no unit of work undoes on an item: money, seller, a licence, a transfer
      and its amount, and a transfer having left the queue. */
  predicate LaterItem(a: Item, b: Item) {
    && b.seller == a.seller && b.bd == a.bd && a.refunded <= b.refunded
    && (a.licence.Some? ==> b.licence.Some?)
    && (a.transfer.Some? ==> b.transfer.Some? && b.transfer.value.amount == a.transfer.value.amount
                             && (!OpenTransfer(a) ==> !OpenTransfer(b)))
  }

  predicate LaterOrder(a: Order, b: Order) {
    && |b.items| == |a.items| && b.grandTotal == a.grandTotal && a.refunded <= b.refunded
    && (Captured(a.status) ==> Captured(b.status))
    && (a.status == Refunded ==> b.status == Refunded)
    && forall i :: 0 <= i < |a.items| ==> LaterItem(a.items[i], b.items[i])
  }

  predicate LaterOrders(a: seq<Order>, b: seq<Order>) {
    |a| <= |b| && forall o :: 0 <= o < |a| ==> LaterOrder(a[o], b[o])
  }

  /** Nothing recorded is ever taken back. */
  predicate Later(a: Db, b: Db) {
    && a.journal <= b.journal
    && LaterOrders(a.orders, b.orders)
    && |a.offsets| <= |b.offsets|
    && a.refunds <= b.refunds && a.releases <= b.releases && a.losses <= b.losses
  }

  lemma {:induction false} SameBooks(a: seq<Item>, b: seq<Item>)
    requires |a| == |b| && forall i :: 0 <= i < |a| ==> b[i].seller == a[i].seller && b[i].bd == a[i].bd
    ensures forall p :: p != RefundedSoFar ==> SumOf(b, p) == SumOf(a, p)
    ensures forall s :: OwedTo(b, s) == OwedTo(a, s)
    ensures BorneBySellers(b) == BorneBySellers(a)
    ensures (forall i :: 0 <= i < |a| ==> b[i].refunded == a[i].refunded) ==>
              SumOf(b, RefundedSoFar) == SumOf(a, RefundedSoFar)
  {
    if a == [] {
    } else {
      SameBooks(a[..|a| - 1], b[..|b| - 1]);
    }
  }

  lemma {:induction false} CapturedNetsUpdate(orders: seq<Order>, o: nat, ord: Order, s: nat)
    requires o < |orders|
    ensures CapturedNets(orders[o := ord], s) == CapturedNets(orders, s) - NetsOf(orders[o], s) + NetsOf(ord, s)
  {
    hide NetsOf;
    var n := |orders| - 1;
    if o < n {
      CapturedNetsUpdate(orders[..n], o, ord, s);
      assert orders[o := ord][..n] == orders[..n][o := ord];
    } else {
      assert orders[o := ord][..n] == orders[..n];
    }
  }

  lemma ReplaceLater(orders: seq<Order>, o: nat, ord: Order)
    requires o < |orders| && LaterOrder(orders[o], ord)
    ensures LaterOrders(orders, orders[o := ord])
  {
    forall x | 0 <= x < |orders| ensures LaterOrder(orders[x], orders[o := ord][x]) {
      if x != o { SameIsLater(orders[x]); }
    }
  }

  lemma SameIsLater(ord: Order)
    ensures LaterOrder(ord, ord)
  {
  }

  /** Keys stay justified as the tables grow. */
  lemma KeyStaysOk(a: Db, b: Db, k: Key)
    requires KeyOk(a, k) && LaterOrders(a.orders, b.orders)
    requires |a.offsets| <= |b.offsets| && |a.refunds| <= |b.refunds|
    ensures KeyOk(b, k)
  {
    match k
    case CaptureKey(o, _) => assert LaterOrder(a.orders[o], b.orders[o]);
    case PspFeeKey(o, _) => assert LaterOrder(a.orders[o], b.orders[o]);
    case ReserveKey(o, i) =>
      assert LaterOrder(a.orders[o], b.orders[o]);
      assert LaterItem(a.orders[o].items[i], b.orders[o].items[i]);
    case SettleKey(o, i) =>
      assert LaterOrder(a.orders[o], b.orders[o]);
      assert LaterItem(a.orders[o].items[i], b.orders[o].items[i]);
    case _ =>
  }

  lemma KeysStayOk(a: Db, b: Db)
    requires KeysOk(a) && LaterOrders(a.orders, b.orders)
    requires |a.offsets| <= |b.offsets| && |a.refunds| <= |b.refunds|
    requires forall k :: HasKey(b.journal, k) ==> HasKey(a.journal, k) || KeyOk(b, k)
    ensures KeysOk(b)
  {
    hide KeyOk, HasKey, LaterOrders;
    forall k | HasKey(b.journal, k) ensures KeyOk(b, k) {
      if HasKey(a.journal, k) { KeyStaysOk(a, b, k); }
    }
  }

  /** Rows already written stay consistent with the orders. */
  lemma RowsStayOk(a: seq<Order>, b: seq<Order>, refunds: seq<RefundRow>, releases: seq<ReleaseRow>)
    requires LaterOrders(a, b)
    requires forall n :: 0 <= n < |refunds| ==> RefundRowOk(a, refunds[n])
    requires ReleasesOk(a, releases)
    ensures forall n :: 0 <= n < |refunds| ==> RefundRowOk(b, refunds[n])
    ensures ReleasesOk(b, releases)
  {
    forall n | 0 <= n < |refunds| ensures RefundRowOk(b, refunds[n]) { RefundRowStaysOk(a, b, refunds[n]); }
    forall n | 0 <= n < |releases| ensures ReleaseRowOk(b, releases[n]) { ReleaseRowStaysOk(a, b, releases[n]); }
  }

  lemma RefundRowStaysOk(a: seq<Order>, b: seq<Order>, r: RefundRow)
    requires LaterOrders(a, b) && RefundRowOk(a, r)
    ensures RefundRowOk(b, r)
  {
    hide Scale;
    assert LaterOrder(a[r.order], b[r.order]);
    assert LaterItem(a[r.order].items[r.item], b[r.order].items[r.item]);
    SameShare(a[r.order].items[r.item], b[r.order].items[r.item], r.amount);
  }

  lemma SameShare(a: Item, b: Item, amount: int)
    requires a.bd == b.bd
    ensures ShareOf(a, SellerNet, amount) == ShareOf(b, SellerNet, amount)
  {
    hide Scale;
  }

  lemma ReleaseRowStaysOk(a: seq<Order>, b: seq<Order>, r: ReleaseRow)
    requires LaterOrders(a, b) && ReleaseRowOk(a, r)
    ensures ReleaseRowOk(b, r)
  {
    assert LaterOrder(a[r.order], b[r.order]);
    assert LaterItem(a[r.order].items[r.item], b[r.order].items[r.item]);
  }
}
