/** Proportional refunds: how far the rounded shares can drift from the exact
    ones, and why the refund entry always balances. */
module Refunds {
  import opened Money
  import opened Ledger
  import opened Orders
  import opened Postings
  import T = Tax

  /** A refundable component of a line. */
  predicate IsComponent(p: Part) {
    p in {SellerNet, Commission, CommissionGst, Tcs, Tds}
  }

  /** Every component of a sound line scales without overflow, into a share that
      is non-negative, at most the component, and the nearest integer to the
      exact proportion. */
  lemma ShareIsNearest(it: Item, p: Part, amount: int)
    requires ItemOk(it) && IsComponent(p) && 0 < amount <= it.bd.buyerTotal
    ensures Scale(PartOf(it, p), amount, it.bd.buyerTotal).Ok?
    ensures 0 <= ShareOf(it, p, amount) <= PartOf(it, p) <= it.bd.buyerTotal
    ensures IsHalfUp(ShareOf(it, p, amount), PartOf(it, p) * amount, it.bd.buyerTotal)
    ensures amount == it.bd.buyerTotal ==> ShareOf(it, p, amount) == PartOf(it, p)
  {
    hide ItemOk, MulRatio, IsHalfUp;
    PartStorable(it, p);
    if amount == it.bd.buyerTotal {
      ExactIsHalfUp(PartOf(it, p), amount);
    } else {
      HalfUpRatio(PartOf(it, p), amount, it.bd.buyerTotal);
    }
  }

  lemma ExactIsHalfUp(part: int, t: int)
    requires t > 0
    ensures IsHalfUp(part, part * t, t)
  {
    assert t * part == part * t;
  }

  lemma AllSharesNearest(it: Item, amount: int)
    requires ItemOk(it) && 0 < amount <= it.bd.buyerTotal
    ensures Scales(it, amount)
    ensures forall p :: IsComponent(p) ==>
                          0 <= ShareOf(it, p, amount) <= PartOf(it, p)
                          && IsHalfUp(ShareOf(it, p, amount), PartOf(it, p) * amount, it.bd.buyerTotal)
  {
    forall p | IsComponent(p)
      ensures Scale(PartOf(it, p), amount, it.bd.buyerTotal).Ok?
      ensures 0 <= ShareOf(it, p, amount) <= PartOf(it, p)
      ensures IsHalfUp(ShareOf(it, p, amount), PartOf(it, p) * amount, it.bd.buyerTotal)
    {
      ShareIsNearest(it, p, amount);
    }
    assert PartOf(it, SellerNet) == it.bd.sellerNet;
  }

  lemma AllocatedIs(it: Item, amount: int)
    requires ItemOk(it) && 0 < amount <= it.bd.buyerTotal
    ensures Allocated(it, amount, COMPONENTS)
            == ShareOf(it, SellerNet, amount) + ShareOf(it, Commission, amount)
               + ShareOf(it, CommissionGst, amount) + ShareOf(it, Tcs, amount) + ShareOf(it, Tds, amount)
  {
    AllSharesNearest(it, amount);
    hide ShareOf, IsHalfUp;
    var cs := COMPONENTS;
    assert cs[..3][..2] == cs[..2] && cs[..2][..1] == cs[..1] && cs[..1][..0] == [];
    assert Allocated(it, amount, cs[..1])
           == Positive(ShareOf(it, SellerNet, amount)) + Positive(ShareOf(it, Commission, amount));
    assert Allocated(it, amount, cs[..2])
           == Allocated(it, amount, cs[..1]) + Positive(ShareOf(it, CommissionGst, amount));
    assert Allocated(it, amount, cs[..3]) == Allocated(it, amount, cs[..2]) + Positive(ShareOf(it, Tcs, amount));
  }

  lemma Distribute5(t: int, a: int, b: int, c: int, d: int, e: int, sum: int)
    requires a + b + c + d + e == sum
    ensures t * a + t * b + t * c + t * d + t * e == t * sum
  {
    assert t * sum == t * (a + b + c + d + e);
  }

  lemma AddHalfUps(t: int, x1: int, x2: int, x3: int, x4: int, x5: int,
                   y1: int, y2: int, y3: int, y4: int, y5: int)
    requires -t < 2 * y1 - 2 * x1 <= t && -t < 2 * y2 - 2 * x2 <= t && -t < 2 * y3 - 2 * x3 <= t
    requires -t < 2 * y4 - 2 * x4 <= t && -t < 2 * y5 - 2 * x5 <= t
    ensures -5 * t < 2 * (y1 + y2 + y3 + y4 + y5) - 2 * (x1 + x2 + x3 + x4 + x5) <= 5 * t
  {
  }

  /** Five roundings, each off by at most half a unit, cannot miss by three. */
  lemma FiveHalves(t: int, r: int, sum: int)
    requires t > 0 && -5 * t < 2 * (t * sum) - 2 * (t * r) <= 5 * t
    ensures -2 <= r - sum <= 2
  {
    if sum >= r + 3 {
      MulMono(r + 3, sum, t);
      MulStep(t, r); MulStep(t, r + 1); MulStep(t, r + 2);
    } else if sum <= r - 3 {
      MulMono(sum + 3, r, t);
      MulStep(t, sum); MulStep(t, sum + 1); MulStep(t, sum + 2);
    }
  }

  /** On a line whose five destinations add up to what the buyer paid, a refund
      leaves a residue of at most two minor units either way, and none when the
      whole line is refunded. */
  lemma {:induction false} ResidueIsSmall(it: Item, amount: int)
    requires ItemOk(it) && it.bd.borne == T.Platform && 0 < amount <= it.bd.buyerTotal
    ensures -2 <= Residue(it, amount) <= 2
    ensures amount == it.bd.buyerTotal ==> Residue(it, amount) == 0
  {
    hide ShareOf, ItemOk, Allocated;
    AllocatedIs(it, amount);
    var t := it.bd.buyerTotal;
    ShareIsNearest(it, SellerNet, amount);
    ShareIsNearest(it, Commission, amount);
    ShareIsNearest(it, CommissionGst, amount);
    ShareIsNearest(it, Tcs, amount);
    ShareIsNearest(it, Tds, amount);
    PlatformLineConserves(it);
    FiveShares(t, amount, it.bd.sellerNet, it.bd.commission, it.bd.commissionGst, it.bd.tcs, it.bd.tds,
               ShareOf(it, SellerNet, amount), ShareOf(it, Commission, amount), ShareOf(it, CommissionGst, amount),
               ShareOf(it, Tcs, amount), ShareOf(it, Tds, amount));
  }

  lemma PlatformLineConserves(it: Item)
    requires ItemOk(it) && it.bd.borne == T.Platform
    ensures it.bd.sellerNet + it.bd.commission + it.bd.commissionGst + it.bd.tcs + it.bd.tds == it.bd.buyerTotal
  {
  }

  /** Five nearest shares of five parts that make up the whole. */
  lemma FiveShares(t: int, a: int, p1: int, p2: int, p3: int, p4: int, p5: int,
                   s1: int, s2: int, s3: int, s4: int, s5: int)
    requires t > 0 && p1 + p2 + p3 + p4 + p5 == t
    requires IsHalfUp(s1, p1 * a, t) && IsHalfUp(s2, p2 * a, t) && IsHalfUp(s3, p3 * a, t)
    requires IsHalfUp(s4, p4 * a, t) && IsHalfUp(s5, p5 * a, t)
    ensures -2 <= a - (s1 + s2 + s3 + s4 + s5) <= 2
  {
    var sum := s1 + s2 + s3 + s4 + s5;
    assert -5 * t < 2 * (t * sum) - 2 * (t * a) <= 5 * t by {
      AddHalfUps(t, p1 * a, p2 * a, p3 * a, p4 * a, p5 * a, t * s1, t * s2, t * s3, t * s4, t * s5);
      Distribute5(t, s1, s2, s3, s4, s5, sum);
      Distribute5(a, p1, p2, p3, p4, p5, t);
      Commute5(a, p1, p2, p3, p4, p5, t);
    }
    hide IsHalfUp;
    FiveHalves(t, a, sum);
  }

  lemma Commute5(a: int, p1: int, p2: int, p3: int, p4: int, p5: int, t: int)
    ensures p1 * a == a * p1 && p2 * a == a * p2 && p3 * a == a * p3 && p4 * a == a * p4 && p5 * a == a * p5
    ensures t * a == a * t
  {
  }

  /** Where a refund comes from, account by account. */
  function RefundEffect(it: Item, amount: int, settledAway: bool, a: Account): int {
    match a
    case Clearing => -amount
    case CommissionIncome => ShareOf(it, Commission, amount)
    case GstOutput => ShareOf(it, CommissionGst, amount)
    case TcsPayable => ShareOf(it, Tcs, amount)
    case TdsPayable => ShareOf(it, Tds, amount)
    case RefundAbsorbed => Residue(it, amount)
    case SellerOffset => if settledAway then ShareOf(it, SellerNet, amount) else 0
    case Payable(s) => if !settledAway && s == it.seller then ShareOf(it, SellerNet, amount) else 0
    case _ => 0
  }

  lemma ComponentLinesAre(it: Item, amount: int)
    ensures ComponentLines(it, amount, COMPONENTS)
            == WhenPositive(Dr(CommissionIncome, ShareOf(it, Commission, amount)))
               + WhenPositive(Dr(GstOutput, ShareOf(it, CommissionGst, amount)))
               + WhenPositive(Dr(TcsPayable, ShareOf(it, Tcs, amount)))
               + WhenPositive(Dr(TdsPayable, ShareOf(it, Tds, amount)))
  {
    hide ShareOf, WhenPositive;
    var cs := COMPONENTS;
    assert cs[..3][..2] == cs[..2] && cs[..2][..1] == cs[..1] && cs[..1][..0] == [];
    assert ComponentLines(it, amount, cs[..1]) == WhenPositive(Dr(CommissionIncome, ShareOf(it, Commission, amount)));
    assert ComponentLines(it, amount, cs[..2])
           == ComponentLines(it, amount, cs[..1]) + WhenPositive(Dr(GstOutput, ShareOf(it, CommissionGst, amount)));
    assert ComponentLines(it, amount, cs[..3])
           == ComponentLines(it, amount, cs[..2]) + WhenPositive(Dr(TcsPayable, ShareOf(it, Tcs, amount)));
  }

  lemma ResidueLineEffect(residue: int)
    requires -STORE_MAX <= residue <= STORE_MAX
    ensures Clean(ResidueLine(residue))
    ensures Total(ResidueLine(residue), Debit) - Total(ResidueLine(residue), Credit) == residue
    ensures forall a :: Net(ResidueLine(residue), a) == if a == RefundAbsorbed then residue else 0
    ensures Total(ResidueLine(residue), Debit) == if residue > 0 then residue else 0
  {
    OneLine(Dr(RefundAbsorbed, residue));
    OneLine(Cr(RefundAbsorbed, -residue));
    CleanOne(Dr(RefundAbsorbed, residue));
    CleanOne(Cr(RefundAbsorbed, -residue));
  }

  /** The shares of a refund, before the residue and the credit to clearing. */
  function ShareLines(it: Item, amount: int, settledAway: bool): seq<Line> {
    WhenPositive(Dr(SellerRecovery(it, settledAway), ShareOf(it, SellerNet, amount)))
    + ComponentLines(it, amount, COMPONENTS)
  }

  lemma SharesStorable(it: Item, amount: int, p: Part)
    requires ItemOk(it) && IsComponent(p) && 0 < amount <= it.bd.buyerTotal
    ensures 0 <= ShareOf(it, p, amount) <= STORE_MAX
  {
    ShareIsNearest(it, p, amount);
  }

  lemma ShareLinesEffect(it: Item, amount: int, settledAway: bool)
    requires ItemOk(it) && 0 < amount <= it.bd.buyerTotal
    ensures var lines := ShareLines(it, amount, settledAway);
            && Clean(lines)
            && Total(lines, Debit) == amount - Residue(it, amount)
            && Total(lines, Credit) == 0
            && forall a :: Net(lines, a)
                           == RefundEffect(it, amount, settledAway, a)
                              - (if a == Clearing then -amount
                                 else if a == RefundAbsorbed then Residue(it, amount) else 0)
  {
    hide Net, Total, ShareOf, WhenPositive, Clean, IsHalfUp, Allocated, ComponentLines, ItemOk;
    SharesStorable(it, amount, SellerNet);
    SharesStorable(it, amount, Commission);
    SharesStorable(it, amount, CommissionGst);
    SharesStorable(it, amount, Tcs);
    SharesStorable(it, amount, Tds);
    AllocatedIs(it, amount);
    ComponentLinesAre(it, amount);
    var seller := SellerRecovery(it, settledAway);
    var s1, s2, s3, s4, s5 := ShareOf(it, SellerNet, amount), ShareOf(it, Commission, amount),
        ShareOf(it, CommissionGst, amount), ShareOf(it, Tcs, amount), ShareOf(it, Tds, amount);
    CleanEmpty();
    DebitAppended([], seller, s1);
    var l1 := [] + WhenPositive(Dr(seller, s1));
    DebitAppended(l1, CommissionIncome, s2);
    var l2 := l1 + WhenPositive(Dr(CommissionIncome, s2));
    DebitAppended(l2, GstOutput, s3);
    var l3 := l2 + WhenPositive(Dr(GstOutput, s3));
    DebitAppended(l3, TcsPayable, s4);
    var l4 := l3 + WhenPositive(Dr(TcsPayable, s4));
    DebitAppended(l4, TdsPayable, s5);
    assert ShareLines(it, amount, settledAway) == l4 + WhenPositive(Dr(TdsPayable, s5));
  }

  /** Whatever was rounded, the refund entry of a sound line is let in: the
      residue line makes it balance, every line is positive, and there are at
      least two. */
  lemma RefundEntryAccepted(refund: nat, it: Item, amount: int, settledAway: bool)
    requires ItemOk(it) && 0 < amount <= it.bd.buyerTotal
    ensures Accepted(RefundEntry(refund, it, amount, settledAway))
    ensures forall a ::
              Net(RefundEntry(refund, it, amount, settledAway).lines, a) == RefundEffect(it, amount, settledAway, a)
  {
    hide Net, Total, ShareOf, WhenPositive, IsHalfUp, Allocated, ComponentLines, RefundEffect, ItemOk, ResidueLine,
         Residue;
    ShareLinesEffect(it, amount, settledAway);
    ResidueBounded(it, amount);
    assert amount <= STORE_MAX by { AmountStorable(it, amount); }
    var shares, residue := ShareLines(it, amount, settledAway), ResidueLine(Residue(it, amount));
    var last := Cr(Clearing, amount);
    ResidueLineEffect(Residue(it, amount));
    OneLine(last);
    CleanOne(last);
    CleanConcat(shares, residue);
    CleanConcat(shares + residue, [last]);
    var e := RefundEntry(refund, it, amount, settledAway);
    assert e.lines == shares + residue + [last];
    forall d ensures Total(e.lines, d) == Total(shares, d) + Total(residue, d) + Side(last, d) {
      TotalConcat(shares, residue, d);
      TotalConcat(shares + residue, [last], d);
    }
    forall a ensures Net(e.lines, a) == Net(shares, a) + Net(residue, a) + Signed(last, a) {
      NetConcat(shares, residue, a);
      NetConcat(shares + residue, [last], a);
    }
    assert shares != [] || residue != [] by { CleanEmpty(); }
  }

  lemma AmountStorable(it: Item, amount: int)
    requires ItemOk(it) && 0 < amount <= it.bd.buyerTotal
    ensures amount <= STORE_MAX
  {
  }

  lemma ResidueBounded(it: Item, amount: int)
    requires ItemOk(it) && 0 < amount <= it.bd.buyerTotal
    ensures -STORE_MAX <= Residue(it, amount) <= amount
    ensures Residue(it, amount) > 0 ==> Total(ResidueLine(Residue(it, amount)), Debit) == Residue(it, amount)
  {
    AllSharesNearest(it, amount);
    AllocatedIs(it, amount);
    hide ShareOf, IsHalfUp;
    assert PartOf(it, SellerNet) + PartOf(it, Commission) + PartOf(it, CommissionGst) + PartOf(it, Tcs)
           + PartOf(it, Tds)
           <= it.bd.buyerTotal;
    OneLine(Dr(RefundAbsorbed, Residue(it, amount)));
  }

  /** Refunding every line of a captured order in full, before any settlement,
      reverses the capture account by account. */
  function FullRefunds(items: seq<Item>, a: Account): int {
    if items == [] then 0 else
    var it := items[|items| - 1];
    FullRefunds(items[..|items| - 1], a)
    + if it.bd.buyerTotal > 0 then RefundEffect(it, it.bd.buyerTotal, false, a) else 0
  }

  lemma {:induction false} FullRefundsSum(items: seq<Item>, a: Account)
    requires ItemsOk(items) && forall i :: 0 <= i < |items| ==> items[i].bd.borne == T.Platform
    ensures FullRefunds(items, a)
            == match a
               case Clearing => -SumOf(items, BuyerTotal)
               case CommissionIncome => SumOf(items, Commission)
               case GstOutput => SumOf(items, CommissionGst)
               case TcsPayable => SumOf(items, Tcs)
               case TdsPayable => SumOf(items, Tds)
               case Payable(s) => OwedTo(items, s)
               case _ => 0
  {
    if items == [] {
    } else {
      var init, last := items[..|items| - 1], items[|items| - 1];
      ItemsOkParts(items);
      assert forall i :: 0 <= i < |init| ==> init[i] == items[i];
      FullRefundsSum(init, a);
      if last.bd.buyerTotal > 0 {
        hide ShareOf;
        ShareIsNearest(last, SellerNet, last.bd.buyerTotal);
        ShareIsNearest(last, Commission, last.bd.buyerTotal);
        ShareIsNearest(last, CommissionGst, last.bd.buyerTotal);
        ShareIsNearest(last, Tcs, last.bd.buyerTotal);
        ShareIsNearest(last, Tds, last.bd.buyerTotal);
        hide Residue;
        ResidueIsSmall(last, last.bd.buyerTotal);
      }
    }
  }

  /** A full refund of every line undoes the capture on every account. */
  lemma FullRefundUndoesCapture(o: nat, payment: nat, ord: Order, a: Account)
    requires ItemsOk(ord.items) && 0 < ord.grandTotal == SumOf(ord.items, BuyerTotal) <= STORE_MAX
    requires forall i :: 0 <= i < |ord.items| ==> ord.items[i].bd.borne == T.Platform
    ensures Net(CaptureEntry(o, payment, ord).lines, a) + FullRefunds(ord.items, a) == 0
  {
    CaptureEntryShape(o, payment, ord);
    FullRefundsSum(ord.items, a);
  }

  // ---- many refunds of one line ----------------------------------------------

  function SumAmounts(amounts: seq<int>): int {
    if amounts == [] then 0 else SumAmounts(amounts[..|amounts| - 1]) + amounts[|amounts| - 1]
  }

  function SumShares(it: Item, p: Part, amounts: seq<int>): int {
    if amounts == [] then 0 else SumShares(it, p, amounts[..|amounts| - 1]) + ShareOf(it, p, amounts[|amounts| - 1])
  }

  lemma Distribute2(t: int, a: int, b: int)
    ensures t * (a + b) == t * a + t * b
  {
  }

  /** After k refunds of a line, what was reversed of any component is within k/2
      minor units of its exact proportion: |2T·reversed − 2·component·refunded| <= kT. */
  lemma {:induction false} DriftAfterRefunds(it: Item, p: Part, amounts: seq<int>)
    requires ItemOk(it) && IsComponent(p)
    requires forall a <- amounts :: 0 < a <= it.bd.buyerTotal
    ensures var t := it.bd.buyerTotal;
            -(t * |amounts|)
            <= 2 * (t * SumShares(it, p, amounts)) - 2 * (PartOf(it, p) * SumAmounts(amounts))
            <= t * |amounts|
    ensures SumShares(it, p, amounts) >= 0
  {
    var t := it.bd.buyerTotal;
    if amounts != [] {
      var init, last := amounts[..|amounts| - 1], amounts[|amounts| - 1];
      assert last in amounts;
      forall a | a in init ensures a in amounts { }
      hide ShareOf, ItemOk;
      DriftAfterRefunds(it, p, init);
      ShareIsNearest(it, p, last);
      Distribute2(t, SumShares(it, p, init), ShareOf(it, p, last));
      Distribute2(PartOf(it, p), SumAmounts(init), last);
      MulStep(t, |init|);
      assert t * |amounts| == t * |init| + t;
    } else {
      assert SumShares(it, p, amounts) == 0 && SumAmounts(amounts) == 0;
    }
  }
}
