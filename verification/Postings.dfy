/** What the journal entries built by the order module do to each account, and
    when they are let in. */
module Postings {
  import opened Ledger
  import opened Orders
  import T = Tax

  // ---- lines ----------------------------------------------------------------

  lemma {:induction false} TotalConcat(a: seq<Line>, b: seq<Line>, d: Direction)
    ensures Total(a + b, d) == Total(a, d) + Total(b, d)
  {
    if b == [] {
      assert a + b == a;
    } else {
      var init, last := b[..|b| - 1], b[|b| - 1];
      TotalConcat(a, init, d);
      assert a + b == (a + init) + [last];
      TotalAppend(a + init, last, d);
    }
  }

  lemma {:induction false} NetConcat(a: seq<Line>, b: seq<Line>, x: Account)
    ensures Net(a + b, x) == Net(a, x) + Net(b, x)
  {
    if b == [] {
      assert a + b == a;
    } else {
      var init, last := b[..|b| - 1], b[|b| - 1];
      NetConcat(a, init, x);
      assert a + b == (a + init) + [last];
      NetAppend(a + init, last, x);
    }
  }

  lemma OneLine(l: Line)
    ensures forall d :: Total([l], d) == Side(l, d)
    ensures forall a :: Net([l], a) == Signed(l, a)
    ensures forall d :: Total(WhenPositive(l), d) == if l.amount > 0 then Side(l, d) else 0
    ensures forall a :: Net(WhenPositive(l), a) == if l.amount > 0 then Signed(l, a) else 0
  {
    forall d ensures Total([l], d) == Side(l, d) { TotalAppend([], l, d); assert [] + [l] == [l]; }
    forall a ensures Net([l], a) == Signed(l, a) { NetAppend([], l, a); assert [] + [l] == [l]; }
  }

  /** A sequence of lines every one of which the journal accepts. */
  predicate Clean(lines: seq<Line>) {
    LinesOk(lines, INR) && forall l <- lines :: l.amount <= STORE_MAX
  }

  lemma CleanConcat(a: seq<Line>, b: seq<Line>)
    requires Clean(a) && Clean(b)
    ensures Clean(a + b)
  {
    forall l | l in a + b ensures l in a || l in b { }
  }

  lemma CleanOne(l: Line)
    requires l.currency == INR && l.amount <= STORE_MAX
    ensures Clean(WhenPositive(l))
    ensures l.amount > 0 ==> Clean([l])
  {
  }

  lemma CleanEmpty()
    ensures Clean([])
    ensures forall d :: Total([], d) == 0
    ensures forall a :: Net([], a) == 0
  {
  }

  // ---- sums over items ------------------------------------------------------

  predicate ItemOk(it: Item) {
    && T.NonNegative(it.bd)
    && T.Distributed(it.bd) == it.bd.buyerTotal
    && it.bd.buyerTotal == it.bd.listPrice + it.bd.taxTotal
    && it.bd.buyerTotal <= STORE_MAX
    && 0 <= it.refunded <= it.bd.buyerTotal
  }

  predicate ItemsOk(items: seq<Item>) {
    forall i :: 0 <= i < |items| ==> ItemOk(items[i])
  }

  lemma ItemsOkParts(items: seq<Item>)
    requires ItemsOk(items) && items != []
    ensures ItemsOk(items[..|items| - 1]) && ItemOk(items[|items| - 1])
  {
    assert forall i :: 0 <= i < |items| - 1 ==> items[..|items| - 1][i] == items[i];
  }

  lemma PartStorable(it: Item, p: Part)
    requires ItemOk(it)
    ensures 0 <= PartOf(it, p) <= it.bd.buyerTotal <= STORE_MAX
  {
  }

  lemma {:induction false} PartsBounded(items: seq<Item>, p: Part)
    requires ItemsOk(items)
    ensures 0 <= SumOf(items, p) <= SumOf(items, BuyerTotal)
  {
    if items == [] {
    } else {
      var init, last := items[..|items| - 1], items[|items| - 1];
      ItemsOkParts(items);
      PartsBounded(init, p);
    }
  }

  /** Provider cost the seller bears inside the breakdown. */
  function BorneBySellers(items: seq<Item>): int {
    if items == [] then 0 else
    var b := items[|items| - 1].bd;
    BorneBySellers(items[..|items| - 1]) + if b.borne == T.SellerBears then b.pspFee + b.pspFeeGst else 0
  }

  /** The five destinations of a payment and the cost the sellers bear add up to
      what the buyers paid. */
  lemma {:induction false} PartsConserve(items: seq<Item>)
    requires ItemsOk(items)
    ensures SumOf(items, SellerNet) + SumOf(items, Commission) + SumOf(items, CommissionGst)
            + SumOf(items, Tcs) + SumOf(items, Tds) + BorneBySellers(items) == SumOf(items, BuyerTotal)
    ensures BorneBySellers(items) >= 0
  {
    if items == [] {
    } else {
      var init, last := items[..|items| - 1], items[|items| - 1];
      ItemsOkParts(items);
      PartsConserve(init);
    }
  }

  /** Net owed to one seller over a list of items. */
  function OwedTo(items: seq<Item>, s: nat): int {
    if items == [] then 0 else
    var it := items[|items| - 1];
    OwedTo(items[..|items| - 1], s) + if it.seller == s then it.bd.sellerNet else 0
  }

  // ---- the capture entry ----------------------------------------------------

  lemma {:induction false} SellerLinesEffect(items: seq<Item>, a: Account)
    requires ItemsOk(items)
    ensures Net(SellerLines(items), a) == if a.Payable? then -OwedTo(items, a.seller) else 0
    ensures Total(SellerLines(items), Debit) == 0
    ensures Total(SellerLines(items), Credit) == SumOf(items, SellerNet)
    ensures Clean(SellerLines(items))
  {
    hide Net, Total, Clean, WhenPositive, ItemOk, ItemsOk;
    CleanEmpty();
    if items == [] {
    } else {
      var init, last := items[..|items| - 1], items[|items| - 1];
      ItemsOkParts(items);
      SellerLinesEffect(init, a);
      PartStorable(last, SellerNet);
      CreditAppended(SellerLines(init), Payable(last.seller), last.bd.sellerNet);
    }
  }

  /** Appending one optional credit to a clean list. */
  lemma CreditAppended(lines: seq<Line>, a: Account, amount: int)
    requires Clean(lines) && 0 <= amount <= STORE_MAX
    ensures var r := lines + WhenPositive(Cr(a, amount));
            && Clean(r)
            && Total(r, Debit) == Total(lines, Debit)
            && Total(r, Credit) == Total(lines, Credit) + amount
            && (forall x :: Net(r, x) == Net(lines, x) - if x == a then amount else 0)
  {
    var l := Cr(a, amount);
    OneLine(l);
    CleanOne(l);
    CleanConcat(lines, WhenPositive(l));
    TotalConcat(lines, WhenPositive(l), Debit);
    TotalConcat(lines, WhenPositive(l), Credit);
    forall x ensures Net(lines + WhenPositive(l), x) == Net(lines, x) - if x == a then amount else 0 {
      NetConcat(lines, WhenPositive(l), x);
    }
  }

  lemma DebitAppended(lines: seq<Line>, a: Account, amount: int)
    requires Clean(lines) && 0 <= amount <= STORE_MAX
    ensures var r := lines + WhenPositive(Dr(a, amount));
            && Clean(r)
            && Total(r, Debit) == Total(lines, Debit) + amount
            && Total(r, Credit) == Total(lines, Credit)
            && (forall x :: Net(r, x) == Net(lines, x) + if x == a then amount else 0)
  {
    var l := Dr(a, amount);
    OneLine(l);
    CleanOne(l);
    CleanConcat(lines, WhenPositive(l));
    TotalConcat(lines, WhenPositive(l), Debit);
    TotalConcat(lines, WhenPositive(l), Credit);
    forall x ensures Net(lines + WhenPositive(l), x) == Net(lines, x) + if x == a then amount else 0 {
      NetConcat(lines, WhenPositive(l), x);
    }
  }

  /** Where a captured payment goes, account by account. */
  function CaptureEffect(ord: Order, a: Account): int {
    match a
    case Clearing => ord.grandTotal
    case CommissionIncome => -SumOf(ord.items, Commission)
    case GstOutput => -SumOf(ord.items, CommissionGst)
    case TcsPayable => -SumOf(ord.items, Tcs)
    case TdsPayable => -SumOf(ord.items, Tds)
    case Payable(s) => -OwedTo(ord.items, s)
    case _ => 0
  }

  lemma CaptureEntryShape(o: nat, payment: nat, ord: Order)
    requires ItemsOk(ord.items) && 0 < ord.grandTotal == SumOf(ord.items, BuyerTotal) <= STORE_MAX
    ensures var e := CaptureEntry(o, payment, ord);
            && Clean(e.lines) && e.lines[0] == Dr(Clearing, ord.grandTotal)
            && Total(e.lines, Debit) == ord.grandTotal
            && Total(e.lines, Credit) == ord.grandTotal - BorneBySellers(ord.items)
            && forall a :: Net(e.lines, a) == CaptureEffect(ord, a)
  {
    hide Net, Total, SumOf, OwedTo, SellerLines, BorneBySellers, Clean, ItemOk;
    var items := ord.items;
    PartsConserve(items);
    PartsBounded(items, Commission);
    PartsBounded(items, CommissionGst);
    PartsBounded(items, Tcs);
    PartsBounded(items, Tds);
    var first := Dr(Clearing, ord.grandTotal);
    OneLine(first);
    CleanOne(first);
    SellerLinesEffect(items, Clearing);
    var l1 := [first] + SellerLines(items);
    CleanConcat([first], SellerLines(items));
    TotalConcat([first], SellerLines(items), Debit);
    TotalConcat([first], SellerLines(items), Credit);
    forall a ensures Net(l1, a) == Signed(first, a) - if a.Payable? then OwedTo(items, a.seller) else 0 {
      SellerLinesEffect(items, a);
      NetConcat([first], SellerLines(items), a);
    }
    CreditAppended(l1, CommissionIncome, SumOf(items, Commission));
    var l2 := l1 + WhenPositive(Cr(CommissionIncome, SumOf(items, Commission)));
    CreditAppended(l2, GstOutput, SumOf(items, CommissionGst));
    var l3 := l2 + WhenPositive(Cr(GstOutput, SumOf(items, CommissionGst)));
    CreditAppended(l3, TcsPayable, SumOf(items, Tcs));
    var l4 := l3 + WhenPositive(Cr(TcsPayable, SumOf(items, Tcs)));
    CreditAppended(l4, TdsPayable, SumOf(items, Tds));
    assert CaptureEntry(o, payment, ord).lines == l4 + WhenPositive(Cr(TdsPayable, SumOf(items, Tds)));
  }

  lemma {:induction false} NoCreditsNoTotal(lines: seq<Line>)
    requires |lines| == 1 && lines[0].direction == Debit
    ensures Total(lines, Credit) == 0
  {
    OneLine(lines[0]);
    assert lines == [lines[0]];
  }

  /** The capture entry of a positive, conserving order is let into the journal
      exactly when no seller bears provider cost: there is no line for a fee that
      was taken out of a seller's net. */
  lemma CaptureAcceptedIff(o: nat, payment: nat, ord: Order)
    requires ItemsOk(ord.items) && ord.grandTotal == SumOf(ord.items, BuyerTotal) <= STORE_MAX
    ensures Accepted(CaptureEntry(o, payment, ord)) <==> ord.grandTotal > 0 && BorneBySellers(ord.items) == 0
  {
    hide Net, Total, SumOf, OwedTo, SellerLines, BorneBySellers, ItemOk;
    var e := CaptureEntry(o, payment, ord);
    PartsBounded(ord.items, BuyerTotal);
    PartsConserve(ord.items);
    if ord.grandTotal > 0 {
      CaptureEntryShape(o, payment, ord);
      if BorneBySellers(ord.items) == 0 && |e.lines| < 2 {
        NoCreditsNoTotal(e.lines);
      }
    } else {
      assert e.lines[0] == Dr(Clearing, ord.grandTotal);
      assert e.lines[0] in e.lines;
    }
  }

  /** The fee entry balances for every non-negative reported or estimated fee
      that is not zero, and for no other. */
  lemma FeeAcceptedIff(o: nat, payment: nat, fee: int, feeTax: int)
    requires fee + feeTax <= STORE_MAX
    ensures Accepted(FeeEntry(o, payment, fee, feeTax)) <==> fee >= 0 && feeTax >= 0 && fee + feeTax > 0
    ensures fee >= 0 && feeTax >= 0 && fee + feeTax > 0 ==>
              forall a :: Net(FeeEntry(o, payment, fee, feeTax).lines, a)
                          == match a
                             case PspFeeExpense => fee
                             case InputCredit => feeTax
                             case Clearing => -(fee + feeTax)
                             case _ => 0
  {
    var e := FeeEntry(o, payment, fee, feeTax);
    var l1, l2, l3 := Dr(PspFeeExpense, fee), Dr(InputCredit, feeTax), Cr(Clearing, fee + feeTax);
    OneLine(l1); OneLine(l2); OneLine(l3);
    forall d ensures Total(e.lines, d) == Total(WhenPositive(l1), d) + Total(WhenPositive(l2), d) + Side(l3, d) {
      TotalConcat(WhenPositive(l1), WhenPositive(l2), d);
      TotalConcat(WhenPositive(l1) + WhenPositive(l2), [l3], d);
    }
    forall a ensures Net(e.lines, a) == Net(WhenPositive(l1), a) + Net(WhenPositive(l2), a) + Signed(l3, a) {
      NetConcat(WhenPositive(l1), WhenPositive(l2), a);
      NetConcat(WhenPositive(l1) + WhenPositive(l2), [l3], a);
    }
    assert e.lines[|e.lines| - 1] == l3;
    if fee >= 0 && feeTax >= 0 && fee + feeTax > 0 {
      CleanOne(l1); CleanOne(l2); CleanOne(l3);
      CleanConcat(WhenPositive(l1), WhenPositive(l2));
      CleanConcat(WhenPositive(l1) + WhenPositive(l2), [l3]);
    } else {
      assert l3 in e.lines;
    }
  }
}
