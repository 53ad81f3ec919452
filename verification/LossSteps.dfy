/** A lost dispute keeps the books, also when its entry was posted before: the
    recovery rows are then written again without a posting, and the books say so. */
module LossSteps {
  import opened Ledger
  import opened Orders
  import opened Postings
  import opened Settlements
  import opened Books
  import opened Steps
  import opened Chargebacks
  import F = RefundSteps
  import C = Captures

  function LostOrder(ord: Order): Order {
    ord.(status := if ord.status == Disputed then ChargebackLost else ord.status, items := LossItems(ord.items))
  }

  ghost predicate LostInto(db: Db, after: Db, o: nat, dispute: nat, amount: int)
    requires o < |db.orders|
  {
    var items := db.orders[o].items;
    var firstTime := !HasKey(db.journal, ChargebackKey(dispute));
    && after.orders == db.orders[o := LostOrder(db.orders[o])]
    && after.offsets == db.offsets + LossOffsets(items)
    && after.losses == db.losses + LossRows(o, items, firstTime)
    && after.refunds == db.refunds && after.releases == db.releases
    && Sound(after.journal) && db.journal <= after.journal
    && (forall a ::
          Balance(after.journal, a) == Balance(db.journal, a) + if firstTime then LossEffect(items, amount, a) else 0)
    && (forall k :: HasKey(after.journal, k) ==> HasKey(db.journal, k) || k == ChargebackKey(dispute))
    && (forall x :: CapturesOf(after.journal, x) == CapturesOf(db.journal, x))
  }

  lemma LossJournal(db: Db, payment: nat, dispute: nat, amount: int)
    requires Inv(db) && DisputedOrder(db, payment).Some? && DisputeLostSpec(db, payment, dispute, amount).Ok?
    ensures LostInto(db, DisputeLostSpec(db, payment, dispute, amount).value, DisputedOrder(db, payment).value,
                     dispute, amount)
  {
    hide Inv, Sound, Balance, HasKey, CapturesOf, Net, PostTo, LossEntry, LossEffect, Accepted, KeysOk, OrderOk,
         LossOffsets, LossRows;
    var o := DisputedOrder(db, payment).value;
    var e := LossEntry(dispute, db.orders[o].items, amount);
    C.InvFacts(db, o);
    LossEntryKey(dispute, db.orders[o].items, amount);
    PostToEffect(db, e);
    OrderIsConserving(db.orders[o]);
    LossAcceptedIff(dispute, db.orders[o].items, amount);
    if 0 < amount <= STORE_MAX { LossMoves(dispute, db.orders[o].items, amount); }
  }

  lemma LossEntryKey(dispute: nat, items: seq<Item>, amount: int)
    ensures LossEntry(dispute, items, amount).key == ChargebackKey(dispute)
  {
  }

  lemma OrderIsConserving(ord: Order)
    requires OrderOk(ord)
    ensures ItemsOk(ord.items) && SumOf(ord.items, BuyerTotal) <= STORE_MAX
  {
  }

  lemma {:induction false} LossRowsSum(o: nat, items: seq<Item>, posted: bool, s: nat)
    requires ItemsOk(items)
    ensures Lost(LossRows(o, items, posted), s) == if posted then LossPayable(items, s) else 0
    ensures Unposted(LossRows(o, items, posted)) == if posted then 0 else LossReceivable(items)
  {
    if items == [] {
    } else {
      var init, it := items[..|items| - 1], items[|items| - 1];
      ItemsOkParts(items);
      LossRowsSum(o, init, posted, s);
      var row := LossRow(o, |init|, it.seller, it.bd.sellerNet, IsSettled(it), posted);
      hide ItemOk, IsSettled;
      var rows := LossRows(o, init, posted);
      if it.bd.sellerNet > 0 {
        assert (rows + [row])[..|rows|] == rows;
        assert LossRows(o, items, posted) == rows + [row];
      } else {
        assert LossRows(o, items, posted) == rows;
      }
    }
  }

  lemma LossItemIsQuiet(it: Item)
    ensures LaterItem(it, LossItem(it)) && QuietItem(it, LossItem(it))
  {
  }

  lemma LostOrderIsQuiet(ord: Order)
    ensures QuietOrder(ord, LostOrder(ord))
  {
    forall i | 0 <= i < |ord.items|
      ensures LaterItem(ord.items[i], LossItem(ord.items[i])) && QuietItem(ord.items[i], LossItem(ord.items[i]))
    {
      LossItemIsQuiet(ord.items[i]);
    }
    hide LaterItem, QuietItem, LossItem;
  }

  lemma {:induction false} SaneConcat(a: seq<Offset>, b: seq<Offset>)
    requires SaneOffsets(a) && SaneOffsets(b)
    ensures SaneOffsets(a + b)
  {
    hide SaneOffset;
    forall x | 0 <= x < |a + b| ensures SaneOffset((a + b)[x]) {
      if x < |a| { assert SaneOffset(a[x]); } else { assert SaneOffset(b[x - |a|]); }
    }
  }

  lemma LostTables(db: Db, after: Db, o: nat, dispute: nat, amount: int)
    requires o < |db.orders| && OrderOk(db.orders[o]) && LostInto(db, after, o, dispute, amount)
             && SaneOffsets(db.offsets)
    ensures var done := LostOrder(db.orders[o]);
            && after.orders == db.orders[o := done] && OrderOk(done) && LaterOrder(db.orders[o], done)
            && (forall x :: 0 <= x < |done.items| ==> done.items[x].refunded == db.orders[o].items[x].refunded)
            && |done.items| == |db.orders[o].items|
            && after.refunds == db.refunds && after.releases == db.releases && Sound(after.journal)
            && SaneOffsets(after.offsets)
            && done.grandTotal == db.orders[o].grandTotal && (Captured(done.status) <==> Captured(db.orders[o].status))
            && (forall x :: CapturesOf(after.journal, x) == CapturesOf(db.journal, x))
  {
    hide Sound, OrderOk, LaterOrder, Balance, HasKey, CapturesOf, LossEffect, SaneOffsets, QuietOrder, LostOrder;
    LostOrderIsQuiet(db.orders[o]);
    QuietOrderOk(db.orders[o], LostOrder(db.orders[o]));
    QuietFacts(db.orders[o], LostOrder(db.orders[o]));
    OrderIsConserving(db.orders[o]);
    LossOffsetsMatch(db.orders[o].items);
    SaneConcat(db.offsets, LossOffsets(db.orders[o].items));
  }

  lemma LostKeys(db: Db, after: Db, o: nat, dispute: nat, amount: int)
    requires o < |db.orders| && LostInto(db, after, o, dispute, amount) && KeysOk(db)
    requires LaterOrders(db.orders, after.orders)
    ensures KeysOk(after)
  {
    hide HasKey, Sound, Balance, CapturesOf, LaterOrders, LossEffect, LossRows, LossOffsets;
    KeysStayOk(db, after);
  }

  lemma LostBalances(db: Db, after: Db, o: nat, dispute: nat, amount: int)
    requires o < |db.orders| && OrderOk(db.orders[o]) && LostInto(db, after, o, dispute, amount)
    requires ReceivableOk(db) && PayablesOk(db) && ReservesOk(db)
    ensures ReceivableOk(after) && PayablesOk(after) && ReservesOk(after)
  {
    hide HasKey, Sound, Balance, CapturesOf, OrderOk, NetsOf, OwingTotal, LostOrder, QuietOrder, LossRows,
         LossOffsets, LossReceivable, LossPayable, SaneOffset, ItemOk;
    var items := db.orders[o].items;
    var firstTime := !HasKey(db.journal, ChargebackKey(dispute));
    OrderIsConserving(db.orders[o]);
    LossOffsetsMatch(items);
    OwingConcat(db.offsets, LossOffsets(items));
    LossesAppended(db.losses, LossRows(o, items, firstTime));
    LossRowsSum(o, items, firstTime, 0);
    forall s: nat
      ensures CapturedNets(after.orders, s) == CapturedNets(db.orders, s)
      ensures Lost(after.losses, s) == Lost(db.losses, s) + if firstTime then LossPayable(items, s) else 0
    {
      LossRowsSum(o, items, firstTime, s);
      CapturedNetsUpdate(db.orders, o, LostOrder(db.orders[o]), s);
      LostOrderIsQuiet(db.orders[o]);
      QuietOrderOk(db.orders[o], LostOrder(db.orders[o]));
    }
  }

  lemma LostIntoKeepsInv(db: Db, after: Db, o: nat, dispute: nat, amount: int)
    requires Inv(db) && o < |db.orders| && LostInto(db, after, o, dispute, amount)
    ensures Inv(after)
  {
    hide Sound, OrderOk, ReleasesOk, SaneOffsets, CapturesOk, KeysOk, ReceivableOk, PayablesOk, ReservesOk,
         RefundRowOk, LaterOrder, LaterOrders, LostInto, LostOrder, Captured, CapturesOf;
    assert OrderOk(db.orders[o]);
    LostTables(db, after, o, dispute, amount);
    LostBalances(db, after, o, dispute, amount);
    ReplaceLater(db.orders, o, after.orders[o]);
    LostKeys(db, after, o, dispute, amount);
    F.SameCaptures(db, after);
    RowsStayOk(db.orders, after.orders, db.refunds, db.releases);
  }

  lemma DisputeLostKeepsInv(db: Db, payment: nat, dispute: nat, amount: int)
    requires Inv(db) && DisputeLostSpec(db, payment, dispute, amount).Ok?
    ensures Inv(DisputeLostSpec(db, payment, dispute, amount).value)
  {
    hide Inv, LostInto, LossEntry;
    if DisputedOrder(db, payment).Some? {
      hide DisputeLostSpec;
      LossJournal(db, payment, dispute, amount);
      LostIntoKeepsInv(db, DisputeLostSpec(db, payment, dispute, amount).value, DisputedOrder(db, payment).value,
                       dispute, amount);
    }
  }
}
