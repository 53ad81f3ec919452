/** Lost chargebacks: the loss entry always balances, whatever amount was
    disputed, and its effects agree with the rows written beside it. */
module Chargebacks {
  import opened Ledger
  import opened Orders
  import opened Postings
  import opened Settlements

  /** What one line of a charged-back order gives back: nothing when its seller
      earned nothing. */
  function LossOf(it: Item): int {
    Positive(it.bd.sellerNet)
  }

  /** Recovered from sellers already paid, as a receivable. */
  function LossReceivable(items: seq<Item>): int {
    if items == [] then 0 else
    var it := items[|items| - 1];
    LossReceivable(items[..|items| - 1]) + if IsSettled(it) then LossOf(it) else 0
  }

  /** Taken back from what is still owed to one seller. */
  function LossPayable(items: seq<Item>, s: nat): int {
    if items == [] then 0 else
    var it := items[|items| - 1];
    LossPayable(items[..|items| - 1], s) + if !IsSettled(it) && it.seller == s then LossOf(it) else 0
  }

  function LossLineEffect(items: seq<Item>, a: Account): int {
    match a
    case SellerOffset => LossReceivable(items)
    case Payable(s) => LossPayable(items, s)
    case _ => 0
  }

  lemma {:induction false} LossLinesEffect(items: seq<Item>)
    requires ItemsOk(items)
    ensures Clean(LossLines(items))
    ensures Total(LossLines(items), Debit) == Recovered(items) && Total(LossLines(items), Credit) == 0
    ensures forall a :: Net(LossLines(items), a) == LossLineEffect(items, a)
  {
    hide Net, Total, Clean, WhenPositive, ItemOk, ItemsOk, LossLineEffect, SellerRecovery;
    CleanEmpty();
    if items == [] {
      assert forall a :: LossLineEffect(items, a) == 0 by { NoLossOnNothing(); }
    } else {
      var init, it := items[..|items| - 1], items[|items| - 1];
      ItemsOkParts(items);
      LossLinesEffect(init);
      PartStorable(it, SellerNet);
      DebitAppended(LossLines(init), SellerRecovery(it, IsSettled(it)), it.bd.sellerNet);
      OneMoreLoss(items);
    }
  }

  lemma NoLossOnNothing()
    ensures forall a :: LossLineEffect([], a) == 0
  {
  }

  lemma OneMoreLoss(items: seq<Item>)
    requires items != [] && items[|items| - 1].bd.sellerNet >= 0
    ensures var it := items[|items| - 1];
            forall a :: LossLineEffect(items, a)
                        == LossLineEffect(items[..|items| - 1], a)
                           + if a == SellerRecovery(it, IsSettled(it)) then it.bd.sellerNet else 0
  {
  }

  lemma {:induction false} RecoveredBounded(items: seq<Item>)
    requires ItemsOk(items)
    ensures 0 <= Recovered(items) <= SumOf(items, BuyerTotal)
  {
    if items == [] {
    } else {
      ItemsOkParts(items);
      RecoveredBounded(items[..|items| - 1]);
      PartStorable(items[|items| - 1], SellerNet);
    }
  }

  lemma AbsorbedLineEffect(absorbed: int)
    requires -STORE_MAX <= absorbed <= STORE_MAX
    ensures Clean(AbsorbedLine(absorbed))
    ensures Total(AbsorbedLine(absorbed), Debit) == Positive(absorbed)
    ensures Total(AbsorbedLine(absorbed), Credit) == Positive(-absorbed)
    ensures forall a :: Net(AbsorbedLine(absorbed), a) == if a == ChargebackLoss then absorbed else 0
  {
    OneLine(Dr(ChargebackLoss, absorbed));
    OneLine(Cr(ChargebackLoss, -absorbed));
    CleanOne(Dr(ChargebackLoss, absorbed));
    CleanOne(Cr(ChargebackLoss, -absorbed));
  }

  function LossEffect(items: seq<Item>, amount: int, a: Account): int {
    match a
    case Clearing => -amount
    case ChargebackLoss => amount - Recovered(items)
    case _ => LossLineEffect(items, a)
  }

  /** A loss on a conserving order is let into the journal for every positive
      disputed amount the column can hold, above or below what the sellers give
      back, and for no other. */
  lemma LossAcceptedIff(dispute: nat, items: seq<Item>, amount: int)
    requires ItemsOk(items) && SumOf(items, BuyerTotal) <= STORE_MAX
    ensures Accepted(LossEntry(dispute, items, amount)) <==> 0 < amount <= STORE_MAX
  {
    hide Net, Total, Clean, ItemOk, ItemsOk, LossLines, AbsorbedLine, Recovered, LossLineEffect;
    var e := LossEntry(dispute, items, amount);
    var last := Cr(Clearing, amount);
    assert e.lines[|e.lines| - 1] == last;
    if 0 < amount <= STORE_MAX {
      var losses, absorbed := LossLines(items), AbsorbedLine(amount - Recovered(items));
      RecoveredBounded(items);
      LossLinesEffect(items);
      AbsorbedLineEffect(amount - Recovered(items));
      OneLine(last);
      CleanOne(last);
      CleanConcat(losses, absorbed);
      CleanConcat(losses + absorbed, [last]);
      forall d ensures Total(e.lines, d) == Total(losses, d) + Total(absorbed, d) + Side(last, d) {
        TotalConcat(losses, absorbed, d);
        TotalConcat(losses + absorbed, [last], d);
      }
      assert losses != [] || absorbed != [] by { CleanEmpty(); }
      LossAccepted(e, amount);
    } else {
      assert last in e.lines;
    }
  }

  /** What it moves: the disputed amount out of clearing, the nets back from the
      sellers, settled or not, and the difference as the platform's loss. */
  lemma LossMoves(dispute: nat, items: seq<Item>, amount: int)
    requires ItemsOk(items) && SumOf(items, BuyerTotal) <= STORE_MAX && 0 < amount <= STORE_MAX
    ensures forall a :: Net(LossEntry(dispute, items, amount).lines, a) == LossEffect(items, amount, a)
  {
    hide Net, Total, Clean, ItemOk, ItemsOk, LossLines, AbsorbedLine, Recovered, LossLineEffect;
    var e := LossEntry(dispute, items, amount);
    var last := Cr(Clearing, amount);
    var losses, absorbed := LossLines(items), AbsorbedLine(amount - Recovered(items));
    RecoveredBounded(items);
    LossLinesEffect(items);
    AbsorbedLineEffect(amount - Recovered(items));
    OneLine(last);
    forall a ensures Net(e.lines, a) == Net(losses, a) + Net(absorbed, a) + Signed(last, a) {
      NetConcat(losses, absorbed, a);
      NetConcat(losses + absorbed, [last], a);
    }
    LossNet(items, amount);
  }

  lemma LossAccepted(e: Entry, amount: int)
    requires Clean(e.lines) && |e.lines| >= 2 && e.currency == INR
    requires Total(e.lines, Debit) == Total(e.lines, Credit) <= 2 * STORE_MAX
    ensures Accepted(e)
  {
  }

  /** Only two accounts are touched besides the sellers' own. */
  lemma LossNet(items: seq<Item>, amount: int)
    ensures LossLineEffect(items, Clearing) == 0 && LossLineEffect(items, ChargebackLoss) == 0
  {
  }

  /** The recovery rows written beside the entry are owed exactly what the entry
      debits to the receivable. */
  lemma {:induction false} LossOffsetsMatch(items: seq<Item>)
    requires ItemsOk(items)
    ensures SaneOffsets(LossOffsets(items))
    ensures OwingTotal(LossOffsets(items)) == LossReceivable(items)
  {
    if items == [] {
    } else {
      var init, it := items[..|items| - 1], items[|items| - 1];
      ItemsOkParts(items);
      LossOffsetsMatch(init);
      PartStorable(it, SellerNet);
      var owed := [Offset(it.seller, it.bd.sellerNet, 0, Outstanding)];
      var added := if it.bd.sellerNet > 0 && IsSettled(it) then owed else [];
      OwingConcat(LossOffsets(init), added);
      if added != [] { OwingOne(added[0]); }
    }
  }
}
