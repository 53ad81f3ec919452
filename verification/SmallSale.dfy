/** A line small enough to follow by hand: four minor units at half commission, free
    of every tax, so that two of them are the seller's. */
module SmallSale {
  import opened Money
  import opened Orders
  import opened Postings
  import opened Chargebacks
  import T = Tax

  const NO_RATES: T.Policy := T.Policy(0, 0, 0, 0, 0, 0, 1, false, false, T.Platform)
  const BUYER: T.Buyer := T.Buyer(T.India, 1)
  const SELLER: T.Seller := T.Seller(false, 0, true, false, 0, T.India)
  const LINE: CatalogueLine := CatalogueLine(0, SELLER, T.Sale(4, 5000, 0, 0))
  const PRICED: T.Breakdown := T.Breakdown(T.Exempt, 4, 0, 0, 0, 0, 4, 2, 0, 0, 0, 0, 0, 0, 0, 0, T.Platform, 2, 2)

  lemma ZeroShare(amount: nat)
    requires amount <= 4
    ensures T.Share(amount, 0) == Ok(0)
  {
    assert MulRatio(amount, 0, BPS, HalfUp) == Ok(0);
  }

  lemma HalfOfFour()
    ensures T.Share(4, 5000) == Ok(2)
  {
    assert MulRatio(4, 5000, BPS, HalfUp) == Ok(2);
  }

  lemma ZeroCharged()
    ensures T.Gst(NO_RATES, T.Exempt, 4) == Ok(T.GstLines(0, 0, 0, 4))
    ensures T.Charge(NO_RATES, SELLER, T.Exempt, LINE.sale) == Ok(T.Charges(2, 0, 0, 0, 0, 0))
  {
    ZeroShare(2);
    HalfOfFour();
    hide T.Share, T.BelowThreshold;
  }

  lemma ZeroPriced()
    ensures T.Price(NO_RATES, SELLER, BUYER, LINE.sale) == Ok(PRICED.(sellerNet := 0, platformMargin := 0))
  {
    ZeroCharged();
    ZeroShare(0);
    ZeroShare(4);
    hide T.Share, T.Gst, T.Charge;
  }

  lemma NetOfFour(priced: T.Breakdown)
    requires priced == PRICED.(sellerNet := 0, platformMargin := 0)
    ensures T.SubtractAll(4, T.Deductions(priced)) == Ok(2)
  {
    T.SumOfDeductions(priced);
    T.SubtractAllIs(4, T.Deductions(priced));
    var ds := T.Deductions(priced);
    assert ds == [2, 0, 0, 0] && forall d <- ds :: 0 <= d <= MAX_INT64;
    hide T.SubtractAll, T.Sum, T.Deductions;
  }

  lemma SettlesAs(priced: T.Breakdown, net: int, margin: int)
    requires priced.borne == T.Platform && net >= 0
    requires T.SubtractAll(priced.buyerTotal, T.Deductions(priced)) == Ok(net)
    requires T.Minus(priced.commission, priced.pspFee) == Ok(margin)
    requires T.Verify(priced.(sellerNet := net, platformMargin := margin))
    ensures T.Settle(priced) == Ok(priced.(sellerNet := net, platformMargin := margin))
  {
    hide T.SubtractAll, T.Deductions, T.Minus, T.Verify;
  }

  lemma SmallVerifies(o: T.Breakdown)
    requires o.cgst == 0 && o.sgst == 0 && o.igst == 0 && o.taxTotal == 0 && o.listPrice == 4 && o.buyerTotal == 4
    requires o.commission == 2 && o.commissionGst == 0 && o.tcsCgst == 0 && o.tcsSgst == 0 && o.tcsIgst == 0
             && o.tcs == 0
    requires o.tds == 0 && o.pspFee == 0 && o.pspFeeGst == 0 && o.borne == T.Platform && o.sellerNet == 2
    ensures T.Verify(o)
  {
  }

  lemma ZeroSettled()
    ensures T.Settle(PRICED.(sellerNet := 0, platformMargin := 0)) == Ok(PRICED)
  {
    hide T.SubtractAll, T.Deductions, T.Settle, T.Verify;
    var priced := PRICED.(sellerNet := 0, platformMargin := 0);
    NetOfFour(priced);
    SmallVerifies(PRICED);
    assert priced.(sellerNet := 2, platformMargin := 2) == PRICED;
    SettlesAs(priced, 2, 2);
  }

  lemma ComputedAs(p: T.Policy, s: T.Seller, b: T.Buyer, l: T.Sale, priced: T.Breakdown, out: T.Breakdown)
    requires T.ValidPolicy(p) && l.listPrice >= 0 && T.Rate(l.commissionBps)
    requires T.Price(p, s, b, l) == Ok(priced) && T.Settle(priced) == Ok(out)
    ensures T.ComputeSpec(p, s, b, l) == Ok(out)
  {
    hide T.Price, T.Settle, T.ValidPolicy, T.Rate;
  }

  lemma ZeroRated()
    ensures T.ComputeSpec(NO_RATES, SELLER, BUYER, LINE.sale) == Ok(PRICED)
  {
    hide T.Price, T.Settle, T.ComputeSpec;
    ZeroPriced();
    ZeroSettled();
    ComputedAs(NO_RATES, SELLER, BUYER, LINE.sale, PRICED.(sellerNet := 0, platformMargin := 0), PRICED);
  }

  lemma OneItem(it: Item)
    ensures forall p :: SumOf([it], p) == PartOf(it, p)
    ensures forall s :: OwedTo([it], s) == if it.seller == s then it.bd.sellerNet else 0
    ensures forall s :: LossPayable([it], s) == if !IsSettled(it) && it.seller == s then LossOf(it) else 0
    ensures BorneBySellers([it]) == if it.bd.borne == T.SellerBears then it.bd.pspFee + it.bd.pspFeeGst else 0
  {
    assert [it][..0] == [];
  }
}
