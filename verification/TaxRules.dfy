/** The rules of the decomposition written out: each line of a breakdown as integer
    arithmetic over the facts of the seller, the buyer and the policy. */
module TaxRules {
  import opened Money
  import opened Tax

  /** A rate of an amount, half a unit added and the rest dropped. */
  function Rounded(amount: int, bps: int): int {
    (amount * bps + BPS / 2) / BPS
  }

  /** A registered seller and a buyer who is not abroad, in one known state. */
  predicate Local(s: Seller, b: Buyer) {
    s.gstRegistered && b.country != Abroad && s.state > 0 && b.state > 0 && s.state == b.state
  }

  /** The rate of TDS: none for a foreign seller, the higher one without a PAN, none
      for a resident individual whose turnover with this sale stays within the
      threshold, and otherwise the usual one. */
  function TdsBps(p: Policy, s: Seller, listPrice: int): int {
    if s.country == Abroad then 0
    else if !s.hasPan then p.tdsNoPanBps
    else if s.residentIndividual && 0 <= s.fyGross <= p.tdsThreshold && Wrap(s.fyGross + listPrice) <= p.tdsThreshold
    then 0
    else p.tdsBps
  }

  /** What the sale is decomposed into, whether or not the figures fit. */
  function Expected(p: Policy, s: Seller, b: Buyer, l: Sale): Breakdown {
    var price := l.listPrice;
    var half := if Local(s, b) then Rounded(price, p.gstBps / 2) else 0;
    var igst := if s.gstRegistered && b.country != Abroad && !Local(s, b) then Rounded(price, p.gstBps) else 0;
    var paid := price + half + half + igst;
    var commission := Rounded(price, l.commissionBps);
    var commissionGst := Rounded(commission, p.commissionGstBps);
    var collects := (s.gstRegistered || p.tcsFromUnregistered)
                    && (s.gstRegistered && b.country == Abroad ==> p.tcsOnExports);
    var tcsHalf := if collects && Local(s, b) then Rounded(price, p.tcsBps / 2) else 0;
    var tcsIgst := if collects && !Local(s, b) then Rounded(price, p.tcsBps) else 0;
    var tds := Rounded(price, TdsBps(p, s, price));
    var fee := Rounded(paid, l.pspFeeBps);
    var feeGst := Rounded(fee, l.pspFeeGstBps);
    var deducted := commission + commissionGst + tcsHalf + tcsHalf + tcsIgst + tds
                    + if p.bearer == SellerBears then fee + feeGst else 0;
    Breakdown(if !s.gstRegistered then Exempt else if b.country == Abroad then Export
              else if s.state > 0 && s.state == b.state then IntraState else InterState,
              price, half, half, igst, half + half + igst, paid,
              commission, commissionGst, tcsHalf, tcsHalf, tcsIgst, tcsHalf + tcsHalf + tcsIgst, tds,
              fee, feeGst, p.bearer, paid - deducted, if p.bearer == Platform then commission - fee else commission)
  }

  /** The figures that can leave 64 bits. */
  predicate Storable(o: Breakdown) {
    o.buyerTotal <= MAX_INT64 && o.tcs <= MAX_INT64 && o.pspFee <= MAX_INT64 && o.pspFeeGst <= MAX_INT64
  }

  lemma ShareIs(amount: int, bps: int)
    requires amount >= 0 && bps >= 0
    ensures Rounded(amount, bps) >= 0
    ensures Share(amount, bps)
            == if Rounded(amount, bps) <= MAX_INT64 then Ok(Rounded(amount, bps)) else Err(Arithmetic(Overflow))
  {
    HalfUpIsFloor(amount, bps);
    ApplyingOverflows(amount, bps);
  }

  lemma ApplyingOverflows(amount: int, bps: int)
    ensures ApplyBasisPoints(amount, bps, HalfUp).Err? ==> ApplyBasisPoints(amount, bps, HalfUp) == Err(Overflow)
  {
    hide Bumps;
  }

  /** A rate of at most 100% never leaves 64 bits. */
  lemma WithinAmount(amount: int, bps: int)
    requires 0 <= amount <= MAX_INT64 && 0 <= bps <= BPS
    ensures 0 <= Rounded(amount, bps) <= amount && Share(amount, bps) == Ok(Rounded(amount, bps))
  {
    ShareIs(amount, bps);
    ShareFacts(amount, bps);
  }

  lemma GstIsRounded(p: Policy, s: Seller, b: Buyer, price: int)
    requires ValidPolicy(p) && 0 <= price <= MAX_INT64
    ensures var o := Expected(p, s, b, Sale(price, 0, 0, 0));
            && o.cgst >= 0 && o.igst >= 0
            && Gst(p, Classify(s, b), price)
               == if o.buyerTotal <= MAX_INT64 then Ok(GstLines(o.cgst, o.igst, o.taxTotal, o.buyerTotal))
                  else Err(Arithmetic(Overflow))
  {
    hide Rounded, Share;
    WithinAmount(price, p.gstBps / 2);
    WithinAmount(price, p.gstBps);
  }

  lemma ChargeIsRounded(p: Policy, s: Seller, b: Buyer, l: Sale)
    requires ValidPolicy(p) && 0 <= l.listPrice <= MAX_INT64 && Rate(l.commissionBps)
    ensures var o := Expected(p, s, b, l);
            && 0 <= o.commission <= MAX_INT64 && 0 <= o.commissionGst <= MAX_INT64 && 0 <= o.tds <= MAX_INT64
            && 0 <= o.tcsCgst && 0 <= o.tcsIgst
            && Charge(p, s, Classify(s, b), l)
               == if o.tcs <= MAX_INT64
                  then Ok(Charges(o.commission, o.commissionGst, o.tcsCgst, o.tcsIgst, o.tcs, o.tds))
                  else Err(Arithmetic(Overflow))
  {
    hide Share;
    WithinAmount(l.listPrice, l.commissionBps);
    WithinAmount(Rounded(l.listPrice, l.commissionBps), p.commissionGstBps);
    WithinAmount(l.listPrice, p.tcsBps / 2);
    WithinAmount(l.listPrice, p.tcsBps);
    assert TdsRate(p, s, l.listPrice) == TdsBps(p, s, l.listPrice);
    WithinAmount(l.listPrice, TdsBps(p, s, l.listPrice));
    NothingOfNothing(l.listPrice);
  }

  lemma NothingOfNothing(amount: int)
    ensures Rounded(amount, 0) == 0
  {
  }

  lemma PriceIsRounded(p: Policy, s: Seller, b: Buyer, l: Sale)
    requires ValidPolicy(p) && 0 <= l.listPrice <= MAX_INT64 && Rate(l.commissionBps)
    requires l.pspFeeBps >= 0 && l.pspFeeGstBps >= 0
    ensures var o := Expected(p, s, b, l);
            Price(p, s, b, l)
            == if Storable(o) then Ok(o.(sellerNet := 0, platformMargin := 0)) else Err(Arithmetic(Overflow))
  {
    hide Share, Rounded, Gst, Charge, TdsBps;
    GstIsRounded(p, s, b, l.listPrice);
    ChargeIsRounded(p, s, b, l);
    var o := Expected(p, s, b, l);
    ShareIs(o.buyerTotal, l.pspFeeBps);
    ShareIs(o.pspFee, l.pspFeeGstBps);
  }

  lemma SettleIs(o: Breakdown)
    requires NonNegative(o.(sellerNet := 0)) && o.cgst == o.sgst && o.taxTotal == o.cgst + o.sgst + o.igst
    requires o.buyerTotal == o.listPrice + o.taxTotal <= MAX_INT64
    requires (o.igst > 0 ==> o.cgst == 0) && (o.tcsIgst > 0 ==> o.tcsCgst == 0 && o.tcsSgst == 0)
    requires o.commission <= MAX_INT64 && o.commissionGst <= MAX_INT64 && o.tcs <= MAX_INT64
             && o.tds <= MAX_INT64 && o.pspFee <= MAX_INT64 && o.pspFeeGst <= MAX_INT64
    requires o.sellerNet == o.buyerTotal - o.commission - o.commissionGst - o.tcs - o.tds
                            - if o.borne == SellerBears then o.pspFee + o.pspFeeGst else 0
    requires o.platformMargin == if o.borne == Platform then o.commission - o.pspFee else o.commission
    ensures Settle(o.(sellerNet := 0, platformMargin := 0))
            == if o.sellerNet >= 0 then Ok(o)
               else if o.sellerNet >= MIN_INT64 then Err(DeductionsExceed) else Err(Arithmetic(Overflow))
  {
    hide Verify, Sum, SubtractAll, Distributed;
    var priced := o.(sellerNet := 0, platformMargin := 0);
    SumOfDeductions(priced);
    SubtractAllIs(o.buyerTotal, Deductions(priced));
    SubtractionErrors(o.buyerTotal, Deductions(priced));
    if o.sellerNet >= 0 {
      SettledPassesVerify(priced, o.sellerNet);
      assert priced.(sellerNet := o.sellerNet, platformMargin := o.platformMargin) == o;
      assert Verify(priced.(sellerNet := o.sellerNet, platformMargin := o.platformMargin));
    }
  }

  /** Compute, in full, error by error: on every policy, seller, buyer and sale. */
  lemma ComputeIs(p: Policy, s: Seller, b: Buyer, l: Sale)
    requires l.listPrice <= MAX_INT64 && l.pspFeeBps >= 0 && l.pspFeeGstBps >= 0
    ensures var o := Expected(p, s, b, l);
            ComputeSpec(p, s, b, l)
            == if !(0 <= p.gstBps <= BPS && 0 <= p.commissionGstBps <= BPS && 0 <= p.tcsBps <= BPS
                    && 0 <= p.tdsBps <= BPS && 0 <= p.tdsNoPanBps <= BPS && 1 <= p.platformState <= 99
                    && p.gstBps % 2 == 0 && p.tcsBps % 2 == 0)
               then Err(BadPolicy)
               else if l.listPrice < 0 then Err(NegativePrice)
               else if !(0 <= l.commissionBps <= BPS) then Err(BadCommission)
               else if !Storable(o) then Err(Arithmetic(Overflow))
               else if o.sellerNet >= 0 then Ok(o)
               else if o.sellerNet >= MIN_INT64 then Err(DeductionsExceed) else Err(Arithmetic(Overflow))
  {
    hide Price, Settle;
    if ValidPolicy(p) && l.listPrice >= 0 && Rate(l.commissionBps) {
      PriceIsRounded(p, s, b, l);
      if Storable(Expected(p, s, b, l)) {
        ExpectedShape(p, s, b, l);
        hide Expected;
        SettleIs(Expected(p, s, b, l));
      }
    }
  }

  lemma ExpectedShape(p: Policy, s: Seller, b: Buyer, l: Sale)
    requires ValidPolicy(p) && 0 <= l.listPrice <= MAX_INT64 && Rate(l.commissionBps)
    requires l.pspFeeBps >= 0 && l.pspFeeGstBps >= 0 && Storable(Expected(p, s, b, l))
    ensures var o := Expected(p, s, b, l);
            && NonNegative(o.(sellerNet := 0)) && o.cgst == o.sgst && o.taxTotal == o.cgst + o.sgst + o.igst
            && o.buyerTotal == o.listPrice + o.taxTotal
            && (o.igst > 0 ==> o.cgst == 0) && (o.tcsIgst > 0 ==> o.tcsCgst == 0 && o.tcsSgst == 0)
            && o.commission <= MAX_INT64 && o.commissionGst <= MAX_INT64 && o.tds <= MAX_INT64
            && o.sellerNet == o.buyerTotal - o.commission - o.commissionGst - o.tcs - o.tds
                              - (if o.borne == SellerBears then o.pspFee + o.pspFeeGst else 0)
            && o.platformMargin == if o.borne == Platform then o.commission - o.pspFee else o.commission
  {
    hide Rounded, TdsBps;
    GstIsRounded(p, s, b, l.listPrice);
    ChargeIsRounded(p, s, b, l);
    ShareIs(Expected(p, s, b, l).buyerTotal, l.pspFeeBps);
    ShareIs(Expected(p, s, b, l).pspFee, l.pspFeeGstBps);
  }

  /** Within one state the same tax is due in two halves, and TCS likewise. */
  lemma LocalExample()
    ensures var r := ComputeSpec(DEFAULT_POLICY, Seller(true, 33, true, false, 0, India), Buyer(India, 33),
                                 Sale(100_000, 900, 200, 1800));
            && r.Ok?
            && var o := r.value;
            && o.cgst == 9_000 && o.sgst == 9_000 && o.igst == 0 && o.buyerTotal == 118_000
            && o.commission == 9_000 && o.commissionGst == 1_620
            && o.tcsCgst == 500 && o.tcsSgst == 500 && o.tcsIgst == 0 && o.tds == 100
            && o.pspFee == 2_360 && o.pspFeeGst == 425 && o.sellerNet == 106_280
  {
    hide ComputeSpec;
    ComputeIs(DEFAULT_POLICY, Seller(true, 33, true, false, 0, India), Buyer(India, 33),
              Sale(100_000, 900, 200, 1800));
  }

  /** Nothing is due on a sale abroad, nor from a seller who is not registered, and
      no TCS either unless the policy asks for it. */
  lemma UntaxedExamples()
    ensures var sale := Sale(100_000, 900, 200, 1800);
            var registered := Seller(true, 33, false, false, 0, India);
            var abroad := ComputeSpec(DEFAULT_POLICY, registered, Buyer(Abroad, 33), sale);
            var exempt := ComputeSpec(DEFAULT_POLICY, Seller(false, 33, true, true, 0, India), Buyer(India, 33), sale);
            && abroad.Ok? && abroad.value.taxTotal == 0 && abroad.value.tcs == 1_000 && abroad.value.tds == 5_000
            && exempt.Ok? && exempt.value.taxTotal == 0 && exempt.value.tcs == 0 && exempt.value.tds == 0
  {
    hide ComputeSpec;
    var sale := Sale(100_000, 900, 200, 1800);
    ComputeIs(DEFAULT_POLICY, Seller(true, 33, false, false, 0, India), Buyer(Abroad, 33), sale);
    ComputeIs(DEFAULT_POLICY, Seller(false, 33, true, true, 0, India), Buyer(India, 33), sale);
  }
}
