/** A settlement release keeps the books: the transfer leaves the queue for good,
    and what leaves the seller's payable is the reserve, the recoveries posted and
    the net paid out. */
module ReleaseSteps {
  import opened Money
  import opened Ledger
  import opened Orders
  import opened Postings
  import opened Settlements
  import opened Books
  import opened Steps
  import F = RefundSteps
  import C = Captures

  lemma TwoLinesNet(from: Account, to: Account, amount: int)
    requires from != to
    ensures forall a ::
              Net([Dr(from, amount), Cr(to, amount)], a) == if a == from then amount else if a == to then -amount else 0
  {
    var d, c := Dr(from, amount), Cr(to, amount);
    OneLine(d);
    OneLine(c);
    assert [d] + [c] == [d, c];
    forall a ensures Net([d, c], a) == Net([d], a) + Net([c], a) { NetConcat([d], [c], a); }
  }

  /** A transfer between two accounts that is posted only when there is something
      to move. */
  function MoveIfPositive(db: Db, e: Entry, amount: int): Outcome {
    if amount > 0 then PostTo(db, e) else Ok(db)
  }

  /** The journal gained at most one entry under `key`, moving `amount`. */
  ghost predicate MovedInto(j: seq<Entry>, after: seq<Entry>, key: Key, from: Account, to: Account, amount: int) {
    && Sound(after) && j <= after
    && (forall a :: Balance(after, a) == Balance(j, a) + if a == from then amount else if a == to then -amount else 0)
    && (forall k :: HasKey(after, k) ==> HasKey(j, k) || k == key)
    && (forall k :: HasKey(j, k) ==> HasKey(after, k))
    && (forall x :: CapturesOf(after, x) == CapturesOf(j, x))
  }

  lemma MoveIfPositiveEffect(db: Db, key: Key, from: Account, to: Account, amount: int)
    requires Sound(db.journal) && from != to && !key.CaptureKey? && !HasKey(db.journal, key)
    requires MoveIfPositive(db, Entry(key, INR, [Dr(from, amount), Cr(to, amount)]), amount).Ok?
    ensures var after := MoveIfPositive(db, Entry(key, INR, [Dr(from, amount), Cr(to, amount)]), amount).value;
            && after == db.(journal := after.journal)
            && MovedInto(db.journal, after.journal, key, from, to, Positive(amount))
  {
    hide Sound, Balance, HasKey, CapturesOf, Net, PostTo, Accepted;
    if amount > 0 {
      PostToEffect(db, Entry(key, INR, [Dr(from, amount), Cr(to, amount)]));
      TwoLinesNet(from, to, amount);
    }
  }

  // ---- the parts of a release -------------------------------------------------

  function ReleasedOrder(ord: Order, i: nat): Order
    requires i < |ord.items| && ord.items[i].transfer.Some?
  {
    ord.(items := ord.items[i := ord.items[i].(transfer := Some(ord.items[i].transfer.value.(status := Processed)))])
  }

  /** The row a release records. */
  function ReleaseRowFor(o: nat, i: nat, it: Item, reserve: int, n: Netting): ReleaseRow
    requires it.transfer.Some?
  {
    var gross := it.transfer.value.amount;
    ReleaseRow(o, i, it.seller, gross, reserve, n.applied, gross - reserve - n.applied, n.replayed)
  }

  predicate Releasable(ord: Order, i: nat) {
    i < |ord.items| && OpenTransfer(ord.items[i])
  }

  lemma ReserveIsNotNegative(gross: int, bps: nat)
    requires gross >= 0 && ApplyBasisPoints(gross, bps, Down).Ok?
    ensures ApplyBasisPoints(gross, bps, Down).value >= 0
    ensures bps <= BPS ==> ApplyBasisPoints(gross, bps, Down).value <= gross
  {
    DownRatio(gross, bps, BPS);
    if bps <= BPS {
      MulMono(bps, BPS, gross);
      QuotientBound(gross * bps, BPS, gross);
    }
  }

  lemma ApplyNothing(j: seq<Entry>, offsets: seq<Offset>, seller: nat, available: int, k: nat)
    requires available <= 0 && k <= |offsets|
    ensures ApplySpec(j, offsets, seller, available, k) == Ok(Netting(j, offsets, 0, 0))
    decreases |offsets| - k
  {
    if k >= |offsets| || IsOpen(offsets[k], seller) {
    } else {
      ApplyNothing(j, offsets, seller, available, k + 1);
    }
  }

  /** Everything netting does, whether or not anything is left to net against. */
  lemma NettingEffects(j: seq<Entry>, offsets: seq<Offset>, seller: nat, available: int)
    requires Sound(j) && SaneOffsets(offsets)
    ensures var r := ApplySpec(j, offsets, seller, available, 0);
            && r.Ok? && Netted(j, r.value, seller, |offsets|)
            && SaneOffsets(r.value.offsets) && |r.value.offsets| == |offsets|
            && OwingTotal(r.value.offsets) == OwingTotal(offsets) - r.value.applied
            && 0 <= r.value.replayed <= r.value.applied
            && (available >= 0 ==> r.value.applied == Min(available, OwedBetween(offsets, seller, 0, |offsets|)))
            && (available < 0 ==> r.value.applied == 0)
            && r.value.replayed == ReplayedFrom(j, offsets, seller, available, 0, 0)
  {
    hide Sound, Netted, OwingTotal, SaneOffset, ApplySpec, TakeAt, OwedBetween, ReplayedFrom;
    if available <= 0 {
      ApplyNothing(j, offsets, seller, available, 0);
      NettedNothing(j, offsets, seller);
      NothingLeftReplays(j, offsets, seller, available);
    }
    if available >= 0 {
      ApplyClosedForm(j, offsets, seller, available, 0);
      ApplyTakesTheMinimum(j, offsets, seller, available, 0);
      ApplyJournal(j, offsets, seller, available, 0);
      ReplaysExactly(j, offsets, seller, available, 0);
    }
  }

  lemma NothingLeftReplays(j: seq<Entry>, offsets: seq<Offset>, seller: nat, available: int)
    requires SaneOffsets(offsets) && available <= 0
    ensures ReplayedFrom(j, offsets, seller, available, 0, 0) == 0
  {
    hide HasKey;
    forall x | 0 <= x < |offsets| ensures TakeAt(offsets, seller, available, 0, x) == 0 {
      OwedNonNegative(offsets, seller, 0, x);
    }
    NothingReplayed(j, offsets, seller, available, 0, 0);
  }

  /** Only keys of recoveries matter for a collision. */
  lemma {:induction false} SameReplays(a: seq<Entry>, b: seq<Entry>, offsets: seq<Offset>, seller: nat,
                                       available: int, lo: nat)
    requires lo <= |offsets| && forall k: Key :: k.OffsetKey? ==> (HasKey(a, k) <==> HasKey(b, k))
    ensures ReplayedFrom(a, offsets, seller, available, 0, lo) == ReplayedFrom(b, offsets, seller, available, 0, lo)
    decreases |offsets| - lo
  {
    hide HasKey, TakeAt;
    if lo == |offsets| {
    } else {
      SameReplays(a, b, offsets, seller, available, lo + 1);
    }
  }

  /** What a release of an open transfer does to one account. */
  function ReleaseEffect(row: ReleaseRow, a: Account): int {
    match a
    case Payable(s) => if s == row.seller then ReleaseDebit(row) else 0
    case SellerOffset => -(row.applied - row.replayed)
    case Reserve(s) => if s == row.seller then -row.reserve else 0
    case Clearing => 0 - Positive(row.net)
    case _ => 0
  }

  ghost predicate ReleasedInto(db: Db, after: Db, o: nat, i: nat, reserve: int, n: Netting)
    requires o < |db.orders| && Releasable(db.orders[o], i)
  {
    var row := ReleaseRowFor(o, i, db.orders[o].items[i], reserve, n);
    && after.orders == db.orders[o := ReleasedOrder(db.orders[o], i)]
    && after.offsets == n.offsets && SaneOffsets(n.offsets) && |n.offsets| == |db.offsets|
    && OwingTotal(n.offsets) == OwingTotal(db.offsets) - n.applied
    && after.releases == db.releases + [row] && after.refunds == db.refunds && after.losses == db.losses
    && 0 <= n.replayed <= n.applied && reserve >= 0
    && var available := row.gross - reserve;
    && (available >= 0 ==> n.applied == Min(available, OwedBetween(db.offsets, row.seller, 0, |db.offsets|)))
    && (available < 0 ==> n.applied == 0)
    && n.replayed == ReplayedFrom(db.journal, db.offsets, row.seller, available, 0, 0)
    && Sound(after.journal) && db.journal <= after.journal
    && (forall a :: Balance(after.journal, a) == Balance(db.journal, a) + ReleaseEffect(row, a))
    && (forall k :: HasKey(after.journal, k) ==>
          HasKey(db.journal, k) || k == ReserveKey(o, i) || k == SettleKey(o, i)
          || (k.OffsetKey? && k.offset < |db.offsets|))
    && (forall x :: CapturesOf(after.journal, x) == CapturesOf(db.journal, x))
  }

  /** The three postings of a release, one after the other. */
  lemma ReleaseShape(db: Db, o: nat, i: nat, reserveBps: nat, providerOk: bool)
    requires o < |db.orders| && Releasable(db.orders[o], i) && ReleaseSpec(db, o, i, reserveBps, providerOk).Ok?
    ensures var it := db.orders[o].items[i];
            var gross := it.transfer.value.amount;
            && ApplyBasisPoints(gross, reserveBps, Down).Ok?
            && var reserve := ApplyBasisPoints(gross, reserveBps, Down).value;
            var held := MoveIfPositive(db, ReserveEntry(o, i, it.seller, reserve), reserve);
            && held.Ok?
            && var n := ApplySpec(held.value.journal, db.offsets, it.seller, gross - reserve, 0);
            && n.Ok?
            && var row := ReleaseRowFor(o, i, it, reserve, n.value);
            var netted := held.value.(journal := n.value.journal, offsets := n.value.offsets,
                                      orders := db.orders[o := ReleasedOrder(db.orders[o], i)],
                                      releases := db.releases + [row]);
            && MoveIfPositive(netted, SettleEntry(o, i, it.seller, row.net), row.net)
               == ReleaseSpec(db, o, i, reserveBps, providerOk)
  {
    hide PostTo, ApplySpec, ApplyBasisPoints, ReserveEntry, SettleEntry;
  }

  lemma ReleaseKeysAreNew(db: Db, o: nat, i: nat)
    requires KeysOk(db) && o < |db.orders| && Releasable(db.orders[o], i)
    ensures !HasKey(db.journal, ReserveKey(o, i)) && !HasKey(db.journal, SettleKey(o, i))
  {
    hide HasKey;
    assert !KeyOk(db, ReserveKey(o, i)) && !KeyOk(db, SettleKey(o, i));
  }

  /** The three movements add up, account by account. */
  lemma ReleaseBalances(j: seq<Entry>, held: seq<Entry>, netted: seq<Entry>, after: seq<Entry>,
                        o: nat, i: nat, it: Item, reserve: int, n: Netting, offsets: nat)
    requires it.transfer.Some? && reserve >= 0 && n.journal == netted
    requires MovedInto(j, held, ReserveKey(o, i), Payable(it.seller), Reserve(it.seller), reserve)
    requires Netted(held, n, it.seller, offsets)
    requires MovedInto(netted, after, SettleKey(o, i), Payable(it.seller), Clearing,
                       Positive(ReleaseRowFor(o, i, it, reserve, n).net))
    ensures var row := ReleaseRowFor(o, i, it, reserve, n);
            forall a :: Balance(after, a) == Balance(j, a) + ReleaseEffect(row, a)
    ensures forall k :: HasKey(after, k) ==>
                          HasKey(j, k) || k == ReserveKey(o, i) || k == SettleKey(o, i)
                          || (k.OffsetKey? && k.offset < offsets)
    ensures forall x :: CapturesOf(after, x) == CapturesOf(j, x)
    ensures Sound(after) && j <= after
  {
    hide Sound, Balance, HasKey, CapturesOf;
  }

  /** No transfer stays in the queue after its release, and the row accounts for
      every unit of it. */
  lemma ReleaseJournal(db: Db, o: nat, i: nat, reserveBps: nat, providerOk: bool)
    requires Inv(db) && o < |db.orders| && Releasable(db.orders[o], i)
             && ReleaseSpec(db, o, i, reserveBps, providerOk).Ok?
    ensures exists reserve, n :: ReleasedInto(db, ReleaseSpec(db, o, i, reserveBps, providerOk).value, o, i, reserve, n)
                                 && ApplyBasisPoints(db.orders[o].items[i].transfer.value.amount, reserveBps, Down)
                                    == Ok(reserve)
  {
    hide Inv, ReleaseSpec, Sound, Balance, HasKey, CapturesOf, PostTo, ReserveEntry, SettleEntry, ApplyBasisPoints,
         ApplySpec, KeysOk, MoveIfPositive, OrderOk, OwingTotal, SaneOffset, SaneOffsets, MovedInto, Netted,
         ReleaseEffect, OwedBetween, ReplayedFrom, Releasable;
    assert i < |db.orders[o].items| && db.orders[o].items[i].transfer.Some? by { ReleasableItem(db.orders[o], i); }
    C.InvFacts(db, o);
    ReleaseKeysAreNew(db, o, i);
    ReleaseShape(db, o, i, reserveBps, providerOk);
    var it := db.orders[o].items[i];
    var gross := it.transfer.value.amount;
    OpenIsPositive(db.orders[o], i);
    ReserveIsNotNegative(gross, reserveBps);
    var reserve := ApplyBasisPoints(gross, reserveBps, Down).value;
    HeldEffect(db, o, i, it.seller, reserve);
    var held := MoveIfPositive(db, ReserveEntry(o, i, it.seller, reserve), reserve).value;
    assert Sound(held.journal) && !HasKey(held.journal, SettleKey(o, i)) by {
      MovedFacts(db.journal, held.journal, o, i, it.seller, reserve);
    }
    assert SaneOffsets(db.offsets) by { InvOffsets(db); }
    NettingEffects(held.journal, db.offsets, it.seller, gross - reserve);
    var n := ApplySpec(held.journal, db.offsets, it.seller, gross - reserve, 0).value;
    SameOffsetKeys(db.journal, held.journal, o, i, it.seller, reserve);
    SameReplays(db.journal, held.journal, db.offsets, it.seller, gross - reserve, 0);
    assert Sound(n.journal) && !HasKey(n.journal, SettleKey(o, i)) by {
      NettedFacts(held.journal, n, it.seller, |db.offsets|, o, i);
    }
    var row := ReleaseRowFor(o, i, it, reserve, n);
    var netted := held.(journal := n.journal, offsets := n.offsets,
                        orders := db.orders[o := ReleasedOrder(db.orders[o], i)], releases := db.releases + [row]);
    PaidEffect(netted, o, i, it.seller, row.net);
    var after := ReleaseSpec(db, o, i, reserveBps, providerOk).value;
    ReleaseBalances(db.journal, held.journal, n.journal, after.journal, o, i, it, reserve, n, |db.offsets|);
    assert ReleasedInto(db, after, o, i, reserve, n);
  }

  lemma ReleasableItem(ord: Order, i: nat)
    requires Releasable(ord, i)
    ensures i < |ord.items| && ord.items[i].transfer.Some?
  {
  }

  lemma SameOffsetKeys(j: seq<Entry>, after: seq<Entry>, o: nat, i: nat, seller: nat, reserve: int)
    requires MovedInto(j, after, ReserveKey(o, i), Payable(seller), Reserve(seller), reserve)
    ensures forall k: Key :: k.OffsetKey? ==> (HasKey(j, k) <==> HasKey(after, k))
  {
    hide Sound, HasKey, Balance, CapturesOf;
  }

  lemma OpenIsPositive(ord: Order, i: nat)
    requires OrderOk(ord) && Releasable(ord, i)
    ensures Captured(ord.status) && ord.items[i].transfer.value.amount == ord.items[i].bd.sellerNet > 0
  {
    assert if Captured(ord.status) then Delivered(ord.items[i]) else Untouched(ord.items[i]);
  }

  lemma InvOffsets(db: Db)
    requires Inv(db)
    ensures SaneOffsets(db.offsets)
  {
  }

  lemma HeldEffect(db: Db, o: nat, i: nat, seller: nat, reserve: int)
    requires Sound(db.journal) && !HasKey(db.journal, ReserveKey(o, i)) && reserve >= 0
    requires MoveIfPositive(db, ReserveEntry(o, i, seller, reserve), reserve).Ok?
    ensures var held := MoveIfPositive(db, ReserveEntry(o, i, seller, reserve), reserve).value;
            && held == db.(journal := held.journal)
            && MovedInto(db.journal, held.journal, ReserveKey(o, i), Payable(seller), Reserve(seller), reserve)
  {
    hide Sound, HasKey, MoveIfPositive, MovedInto;
    MoveIfPositiveEffect(db, ReserveKey(o, i), Payable(seller), Reserve(seller), reserve);
  }

  lemma PaidEffect(db: Db, o: nat, i: nat, seller: nat, net: int)
    requires Sound(db.journal) && !HasKey(db.journal, SettleKey(o, i))
    requires MoveIfPositive(db, SettleEntry(o, i, seller, net), net).Ok?
    ensures var paid := MoveIfPositive(db, SettleEntry(o, i, seller, net), net).value;
            && paid == db.(journal := paid.journal)
            && MovedInto(db.journal, paid.journal, SettleKey(o, i), Payable(seller), Clearing, Positive(net))
  {
    hide Sound, HasKey, MoveIfPositive, MovedInto;
    MoveIfPositiveEffect(db, SettleKey(o, i), Payable(seller), Clearing, net);
  }

  lemma MovedFacts(j: seq<Entry>, after: seq<Entry>, o: nat, i: nat, seller: nat, reserve: int)
    requires MovedInto(j, after, ReserveKey(o, i), Payable(seller), Reserve(seller), reserve)
             && !HasKey(j, SettleKey(o, i))
    ensures Sound(after) && !HasKey(after, SettleKey(o, i))
  {
    hide Sound, HasKey, Balance, CapturesOf;
  }

  lemma NettedFacts(j: seq<Entry>, n: Netting, seller: nat, rows: nat, o: nat, i: nat)
    requires Netted(j, n, seller, rows) && !HasKey(j, SettleKey(o, i))
    ensures Sound(n.journal) && !HasKey(n.journal, SettleKey(o, i))
  {
    hide Sound, HasKey, Balance, CapturesOf;
  }

  // ---- the books ---------------------------------------------------------------

  lemma ReleasedOrderIsQuiet(ord: Order, i: nat)
    requires Releasable(ord, i)
    ensures QuietOrder(ord, ReleasedOrder(ord, i))
  {
    var after := ReleasedOrder(ord, i);
    forall x | 0 <= x < |ord.items|
      ensures LaterItem(ord.items[x], after.items[x]) && QuietItem(ord.items[x], after.items[x])
    {
      if x != i { LaterItemRefl(ord.items[x]); }
    }
    hide LaterItem, QuietItem;
  }

  lemma ReleaseRows(orders: seq<Order>, rows: seq<ReleaseRow>, o: nat, i: nat, reserve: int, n: Netting)
    requires ReleasesOk(orders, rows) && o < |orders| && OrderOk(orders[o]) && Releasable(orders[o], i)
    requires reserve >= 0 && 0 <= n.replayed <= n.applied
    ensures ReleasesOk(orders[o := ReleasedOrder(orders[o], i)],
                       rows + [ReleaseRowFor(o, i, orders[o].items[i], reserve, n)])
  {
    hide OrderOk, LaterOrders, LaterOrder, QuietOrder;
    OpenIsPositive(orders[o], i);
    ReleasedOrderIsQuiet(orders[o], i);
    var after := orders[o := ReleasedOrder(orders[o], i)];
    assert LaterOrders(orders, after) by { QuietFacts(orders[o], after[o]); ReplaceLater(orders, o, after[o]); }
    var row := ReleaseRowFor(o, i, orders[o].items[i], reserve, n);
    assert ReleaseRowOk(after, row);
    forall x | 0 <= x < |rows| ensures ReleaseRowOk(after, rows[x]) && (rows[x].order, rows[x].item) != (o, i) {
      assert ReleaseRowOk(orders, rows[x]);
      ReleaseRowStaysOk(orders, after, rows[x]);
    }
    hide ReleaseRowOk;
  }

  lemma ReleasedTables(db: Db, after: Db, o: nat, i: nat, reserve: int, n: Netting)
    requires Inv(db) && o < |db.orders| && Releasable(db.orders[o], i) && ReleasedInto(db, after, o, i, reserve, n)
    ensures var done := ReleasedOrder(db.orders[o], i);
            && after.orders == db.orders[o := done] && OrderOk(done) && LaterOrder(db.orders[o], done)
            && (forall x :: 0 <= x < |done.items| ==> done.items[x].refunded == db.orders[o].items[x].refunded)
            && |done.items| == |db.orders[o].items|
            && ReleasesOk(after.orders, after.releases)
            && after.refunds == db.refunds && Sound(after.journal) && SaneOffsets(after.offsets)
            && done.grandTotal == db.orders[o].grandTotal && (Captured(done.status) <==> Captured(db.orders[o].status))
            && (forall x :: CapturesOf(after.journal, x) == CapturesOf(db.journal, x))
  {
    hide Sound, OrderOk, LaterOrder, Balance, HasKey, CapturesOf, ReleaseEffect, RefundsOk, ReleasesOk, KeysOk,
         CapturesOk, PayablesOk, ReservesOk, ReceivableOk, SaneOffsets, QuietOrder;
    assert OrderOk(db.orders[o]);
    ReleaseRows(db.orders, db.releases, o, i, reserve, n);
    ReleasedOrderIsQuiet(db.orders[o], i);
    QuietOrderOk(db.orders[o], ReleasedOrder(db.orders[o], i));
    QuietFacts(db.orders[o], ReleasedOrder(db.orders[o], i));
  }

  lemma ReleasedKeys(db: Db, after: Db, o: nat, i: nat, reserve: int, n: Netting)
    requires o < |db.orders| && Releasable(db.orders[o], i) && ReleasedInto(db, after, o, i, reserve, n) && KeysOk(db)
    requires LaterOrders(db.orders, after.orders)
    ensures KeysOk(after)
  {
    hide HasKey, Sound, Balance, CapturesOf, LaterOrders, ReleaseEffect, SaneOffsets;
    KeysStayOk(db, after);
  }

  lemma ReleasedBalances(db: Db, after: Db, o: nat, i: nat, reserve: int, n: Netting)
    requires o < |db.orders| && Releasable(db.orders[o], i) && OrderOk(db.orders[o])
             && ReleasedInto(db, after, o, i, reserve, n)
    requires ReceivableOk(db) && PayablesOk(db) && ReservesOk(db)
    ensures ReceivableOk(after) && PayablesOk(after) && ReservesOk(after)
  {
    hide HasKey, Sound, Balance, CapturesOf, OrderOk, NetsOf, SaneOffsets, OwingTotal, ReleasedOrder, QuietOrder;
    var row := ReleaseRowFor(o, i, db.orders[o].items[i], reserve, n);
    ReleaseAppended(db.releases, row);
    hide ReleaseDebit;
    forall s: nat ensures CapturedNets(after.orders, s) == CapturedNets(db.orders, s) {
      CapturedNetsUpdate(db.orders, o, ReleasedOrder(db.orders[o], i), s);
      ReleasedOrderIsQuiet(db.orders[o], i);
      QuietOrderOk(db.orders[o], ReleasedOrder(db.orders[o], i));
    }
  }

  lemma ReleasedIntoKeepsInv(db: Db, after: Db, o: nat, i: nat, reserve: int, n: Netting)
    requires Inv(db) && o < |db.orders| && Releasable(db.orders[o], i) && ReleasedInto(db, after, o, i, reserve, n)
    ensures Inv(after)
  {
    hide Sound, OrderOk, ReleasesOk, SaneOffsets, CapturesOk, KeysOk, ReceivableOk, PayablesOk, ReservesOk,
         RefundRowOk, LaterOrder, LaterOrders, ReleasedInto, ReleasedOrder, Captured, Releasable, CapturesOf;
    assert OrderOk(db.orders[o]);
    ReleasedTables(db, after, o, i, reserve, n);
    ReleasedBalances(db, after, o, i, reserve, n);
    ReplaceLater(db.orders, o, after.orders[o]);
    ReleasedKeys(db, after, o, i, reserve, n);
    F.SameCaptures(db, after);
    RowsStayOk(db.orders, after.orders, db.refunds, db.releases);
  }

  lemma ReleaseKeepsInv(db: Db, o: nat, i: nat, reserveBps: nat, providerOk: bool)
    requires Inv(db) && ReleaseSpec(db, o, i, reserveBps, providerOk).Ok?
    ensures Inv(ReleaseSpec(db, o, i, reserveBps, providerOk).value)
  {
    hide Inv, ReleaseSpec, ReleasedInto;
    if o < |db.orders| && Releasable(db.orders[o], i) {
      ReleaseJournal(db, o, i, reserveBps, providerOk);
      var after := ReleaseSpec(db, o, i, reserveBps, providerOk).value;
      var reserve, n :| ReleasedInto(db, after, o, i, reserve, n);
      ReleasedIntoKeepsInv(db, after, o, i, reserve, n);
    } else {
      ReleaseLeavesClosed(db, o, i, reserveBps, providerOk);
    }
  }

  /** A transfer already out of the queue is left alone. */
  lemma ReleaseLeavesClosed(db: Db, o: nat, i: nat, reserveBps: nat, providerOk: bool)
    requires !(o < |db.orders| && Releasable(db.orders[o], i))
    ensures var r := ReleaseSpec(db, o, i, reserveBps, providerOk); r.Ok? ==> r.value == db
  {
  }
}
