/** The decomposition of one sale (internal/modules/tax): who receives which part
    of the buyer's payment, with every deduction rounded on its own. */
module Tax {
  import opened Money

  datatype Bearer = Platform | SellerBears

  /** Country codes are reduced to the three cases the code distinguishes. */
  datatype Country = Unset | India | Abroad

  datatype Policy = Policy(
    gstBps: int, commissionGstBps: int, tcsBps: int, tdsBps: int, tdsNoPanBps: int,
    tdsThreshold: int, platformState: int,
    tcsFromUnregistered: bool, tcsOnExports: bool, bearer: Bearer)

  const DEFAULT_POLICY: Policy :=
    Policy(1800, 1800, 100, 10, 500, 50_000_000, 33, false, true, Platform)

  datatype Seller = Seller(
    gstRegistered: bool, state: int, hasPan: bool, residentIndividual: bool,
    fyGross: int, country: Country)

  datatype Buyer = Buyer(country: Country, state: int)

  datatype Sale = Sale(listPrice: int, commissionBps: int, pspFeeBps: int, pspFeeGstBps: int)

  datatype Supply = IntraState | InterState | Export | Exempt

  datatype Breakdown = Breakdown(
    supply: Supply, listPrice: int, cgst: int, sgst: int, igst: int, taxTotal: int, buyerTotal: int,
    commission: int, commissionGst: int, tcsCgst: int, tcsSgst: int, tcsIgst: int, tcs: int, tds: int,
    pspFee: int, pspFeeGst: int, borne: Bearer, sellerNet: int, platformMargin: int)

  datatype TaxError =
    | BadPolicy | NegativePrice | BadCommission | Arithmetic(e: MoneyError)
    | DeductionsExceed | Inconsistent

  predicate Rate(bps: int) { 0 <= bps <= BPS }

  predicate ValidPolicy(p: Policy) {
    && Rate(p.gstBps) && Rate(p.commissionGstBps) && Rate(p.tcsBps)
    && Rate(p.tdsBps) && Rate(p.tdsNoPanBps)
    && 1 <= p.platformState <= 99
    && p.gstBps % 2 == 0 && p.tcsBps % 2 == 0
  }

  function Classify(s: Seller, b: Buyer): Supply {
    if !s.gstRegistered then Exempt
    else if b.country == Abroad then Export
    else if s.state > 0 && b.state > 0 && s.state == b.state then IntraState
    else InterState
  }

  /** The guarded comparison, in the int64 arithmetic the code uses. */
  predicate BelowThreshold(fySoFar: int, thisSale: int, threshold: int) {
    && fySoFar >= 0 && thisSale >= 0 && fySoFar <= threshold
    && Wrap(fySoFar + thisSale) <= threshold
  }

  /** The guard is meant to stop a wrapped sum from reading as "below". It gives
      the exact answer if and only if the sum does not wrap. */
  lemma BelowThresholdIsExactIff(fySoFar: int, thisSale: int, threshold: int)
    requires 0 <= fySoFar <= threshold <= MAX_INT64 && 0 <= thisSale <= MAX_INT64
    ensures (BelowThreshold(fySoFar, thisSale, threshold) <==> fySoFar + thisSale <= threshold)
            <==> fySoFar + thisSale <= MAX_INT64
  {
    if fySoFar + thisSale > MAX_INT64 {
      assert Wrap(fySoFar + thisSale) == fySoFar + thisSale - TWO_64;
    }
  }

  /** A turnover at the largest threshold there can be: the next unit sold wraps the
      sum and reads as below. */
  lemma WrappedTurnoverReadsAsBelow()
    ensures BelowThreshold(MAX_INT64, 1, MAX_INT64) && !(MAX_INT64 + 1 <= MAX_INT64)
  {
    assert Wrap(MAX_INT64 + 1) == MIN_INT64;
  }

  function Share(amount: int, bps: int): Result<int, TaxError> {
    match ApplyBasisPoints(amount, bps, HalfUp)
    case Ok(v) => Ok(v)
    case Err(e) => Err(Arithmetic(e))
  }

  function Plus(a: int, b: int): Result<int, TaxError> {
    match Add(a, b)
    case Ok(v) => Ok(v)
    case Err(e) => Err(Arithmetic(e))
  }

  function Minus(a: int, b: int): Result<int, TaxError> {
    match Sub(a, b)
    case Ok(v) => Ok(v)
    case Err(e) => Err(Arithmetic(e))
  }

  predicate CollectsTcs(p: Policy, s: Seller, supply: Supply) {
    && (s.gstRegistered || p.tcsFromUnregistered)
    && (supply != Export || p.tcsOnExports)
    && p.tcsBps > 0
  }

  function TdsRate(p: Policy, s: Seller, listPrice: int): int {
    if s.country == Abroad then 0
    else if !s.hasPan then p.tdsNoPanBps
    else if s.residentIndividual && BelowThreshold(s.fyGross, listPrice, p.tdsThreshold) then 0
    else p.tdsBps
  }

  datatype GstLines = GstLines(half: int, igst: int, taxTotal: int, buyerTotal: int)

  datatype Charges = Charges(
    commission: int, commissionGst: int, tcsHalf: int, tcsIgst: int, tcs: int, tds: int)

  /** GST on the seller's supply: two equal halves, one integrated line, or none. */
  function Gst(p: Policy, supply: Supply, listPrice: int): Result<GstLines, TaxError> {
    var half :- if supply == IntraState then Share(listPrice, p.gstBps / 2) else Ok(0);
    var igst :- if supply == InterState then Share(listPrice, p.gstBps) else Ok(0);
    var components :- Plus(half, half);
    var taxTotal :- Plus(components, igst);
    var buyerTotal :- Plus(listPrice, taxTotal);
    Ok(GstLines(half, igst, taxTotal, buyerTotal))
  }

  /** Commission, GST on it, TCS and TDS, all on the list price. */
  function Charge(p: Policy, s: Seller, supply: Supply, l: Sale): Result<Charges, TaxError> {
    var commission :- Share(l.listPrice, l.commissionBps);
    var commissionGst :- Share(commission, p.commissionGstBps);
    var collects := CollectsTcs(p, s, supply);
    var tcsHalf :- if collects && supply == IntraState then Share(l.listPrice, p.tcsBps / 2) else Ok(0);
    var tcsIgst :- if collects && supply != IntraState then Share(l.listPrice, p.tcsBps) else Ok(0);
    var tcsComponents :- Plus(tcsHalf, tcsHalf);
    var tcs :- Plus(tcsComponents, tcsIgst);
    var rate := TdsRate(p, s, l.listPrice);
    var tds :- if rate > 0 then Share(l.listPrice, rate) else Ok(0);
    Ok(Charges(commission, commissionGst, tcsHalf, tcsIgst, tcs, tds))
  }

  /** The lines of the breakdown before settlement: rates applied to the list
      price, each rounded half-up on its own. */
  function Price(p: Policy, s: Seller, b: Buyer, l: Sale): Result<Breakdown, TaxError> {
    var supply := Classify(s, b);
    var g :- Gst(p, supply, l.listPrice);
    var c :- Charge(p, s, supply, l);
    var pspFee :- Share(g.buyerTotal, l.pspFeeBps);
    var pspFeeGst :- Share(pspFee, l.pspFeeGstBps);
    Ok(Breakdown(supply, l.listPrice, g.half, g.half, g.igst, g.taxTotal, g.buyerTotal,
                 c.commission, c.commissionGst, c.tcsHalf, c.tcsHalf, c.tcsIgst, c.tcs, c.tds,
                 pspFee, pspFeeGst, p.bearer, 0, 0))
  }

  /** What is taken out of the buyer's payment before the seller is paid. */
  function Deductions(b: Breakdown): seq<int> {
    [b.commission, b.commissionGst, b.tcs, b.tds]
    + if b.borne == SellerBears then [b.pspFee, b.pspFeeGst] else []
  }

  function SubtractAll(from: int, ds: seq<int>): Result<int, TaxError> {
    if ds == [] then Ok(from) else
    var rest :- SubtractAll(from, ds[..|ds| - 1]);
    Minus(rest, ds[|ds| - 1])
  }

  function Sum(xs: seq<int>): int {
    if xs == [] then 0 else Sum(xs[..|xs| - 1]) + xs[|xs| - 1]
  }

  function ComputeSpec(p: Policy, s: Seller, b: Buyer, l: Sale): Result<Breakdown, TaxError> {
    if !ValidPolicy(p) then Err(BadPolicy)
    else if l.listPrice < 0 then Err(NegativePrice)
    else if !Rate(l.commissionBps) then Err(BadCommission)
    else
      var priced :- Price(p, s, b, l);
      Settle(priced)
  }

  /** The settlement step: the seller receives the whole payment less the
      deductions, and the completed breakdown is checked. */
  function Settle(priced: Breakdown): Result<Breakdown, TaxError> {
    var net :- SubtractAll(priced.buyerTotal, Deductions(priced));
    if net < 0 then Err(DeductionsExceed) else
    var margin :- if priced.borne == Platform then Minus(priced.commission, priced.pspFee) else Ok(priced.commission);
    var out := priced.(sellerNet := net, platformMargin := margin);
    if Verify(out) then Ok(out) else Err(Inconsistent)
  }

  /** The self-check run on every breakdown before it leaves the package. An
      overflow inside the check counts as a failure. */
  predicate Verify(b: Breakdown) {
    && Fits(b.cgst + b.sgst) && b.cgst + b.sgst + b.igst == b.taxTotal
    && b.listPrice + b.taxTotal == b.buyerTotal
    && Fits(b.sellerNet + b.commission) && Fits(b.sellerNet + b.commission + b.commissionGst)
    && Fits(b.sellerNet + b.commission + b.commissionGst + b.tcs)
    && Fits(b.sellerNet + b.commission + b.commissionGst + b.tcs + b.tds)
    && (b.borne == SellerBears ==>
          Fits(b.sellerNet + b.commission + b.commissionGst + b.tcs + b.tds + b.pspFee))
    && Distributed(b) == b.buyerTotal
    && b.cgst == b.sgst
    && !(b.igst > 0 && (b.cgst > 0 || b.sgst > 0))
    && !(b.tcsIgst > 0 && (b.tcsCgst > 0 || b.tcsSgst > 0))
    && NonNegative(b)
  }

  function Distributed(b: Breakdown): int {
    b.sellerNet + b.commission + b.commissionGst + b.tcs + b.tds
    + if b.borne == SellerBears then b.pspFee + b.pspFeeGst else 0
  }

  predicate NonNegative(b: Breakdown) {
    && b.listPrice >= 0 && b.cgst >= 0 && b.sgst >= 0 && b.igst >= 0 && b.taxTotal >= 0 && b.buyerTotal >= 0
    && b.commission >= 0 && b.commissionGst >= 0 && b.tcs >= 0 && b.tds >= 0
    && b.pspFee >= 0 && b.pspFeeGst >= 0 && b.sellerNet >= 0
  }

  lemma PricedBearer(p: Policy, s: Seller, b: Buyer, l: Sale)
    ensures var r := Price(p, s, b, l); r.Ok? ==> r.value.borne == p.bearer
  {
    hide Gst, Charge, Share;
  }

  /** Compute prices the line, then reduces the buyer's payment deduction by
      deduction, as the settlement step does. */
  method Compute(p: Policy, s: Seller, b: Buyer, l: Sale) returns (r: Result<Breakdown, TaxError>)
    ensures r == ComputeSpec(p, s, b, l)
  {
    hide Price, Verify, Deductions, ValidPolicy;
    if !ValidPolicy(p) { return Err(BadPolicy); }
    if l.listPrice < 0 { return Err(NegativePrice); }
    if !Rate(l.commissionBps) { return Err(BadCommission); }
    var priced := Price(p, s, b, l);
    if priced.Err? { return Err(priced.error); }
    PricedBearer(p, s, b, l);
    var out := priced.value;
    var ds := Deductions(out);
    var net := out.buyerTotal;
    var i := 0;
    while i < |ds|
      invariant 0 <= i <= |ds|
      invariant SubtractAll(out.buyerTotal, ds[..i]) == Ok(net)
    {
      assert ds[..i + 1][..i] == ds[..i];
      var next := Minus(net, ds[i]);
      assert SubtractAll(out.buyerTotal, ds[..i + 1]) == next;
      if next.Err? {
        SubtractFailsLater(out.buyerTotal, ds, i + 1);
        return Err(next.error);
      }
      net := next.value;
      i := i + 1;
    }
    assert ds[..|ds|] == ds;
    if net < 0 { return Err(DeductionsExceed); }
    var margin := if p.bearer == Platform then Minus(out.commission, out.pspFee) else Ok(out.commission);
    if margin.Err? { return Err(margin.error); }
    out := out.(sellerNet := net, platformMargin := margin.value);
    if !Verify(out) { return Err(Inconsistent); }
    return Ok(out);
  }

  /** Once a prefix of the deductions has failed, the whole subtraction fails
      with the same error. */
  lemma {:induction false} SubtractFailsLater(from: int, ds: seq<int>, k: nat)
    requires k <= |ds| && SubtractAll(from, ds[..k]).Err?
    ensures SubtractAll(from, ds) == SubtractAll(from, ds[..k])
    decreases |ds|
  {
    if k == |ds| {
      assert ds[..k] == ds;
    } else {
      assert ds[..|ds| - 1][..k] == ds[..k];
      SubtractFailsLater(from, ds[..|ds| - 1], k);
    }
  }

  lemma {:induction false} SubtractAllIs(from: int, ds: seq<int>)
    ensures SubtractAll(from, ds).Ok? ==> SubtractAll(from, ds).value == from - Sum(ds)
    ensures (forall d <- ds :: 0 <= d <= MAX_INT64) && Fits(from) && Fits(from - Sum(ds))
            ==> SubtractAll(from, ds).Ok?
  {
    if ds == [] {
    } else {
      var init, last := ds[..|ds| - 1], ds[|ds| - 1];
      SubtractAllIs(from, init);
      if forall d <- ds :: 0 <= d <= MAX_INT64 {
        assert last in ds;
        forall d | d in init ensures 0 <= d <= MAX_INT64 { assert d in ds; }
        SumNonNegative(init);
      }
    }
  }

  lemma {:induction false} SumNonNegative(xs: seq<int>)
    requires forall x <- xs :: x >= 0
    ensures Sum(xs) >= 0
  {
    if xs == [] {
    } else {
      assert xs[|xs| - 1] in xs;
      var init := xs[..|xs| - 1];
      forall x | x in init ensures x >= 0 { assert x in xs; }
      SumNonNegative(init);
    }
  }

  lemma SumAppend(xs: seq<int>, x: int)
    ensures Sum(xs + [x]) == Sum(xs) + x
  {
    assert (xs + [x])[..|xs|] == xs;
  }

  lemma SumOfDeductions(b: Breakdown)
    ensures Sum(Deductions(b)) ==
            b.commission + b.commissionGst + b.tcs + b.tds
            + if b.borne == SellerBears then b.pspFee + b.pspFeeGst else 0
  {
    SumAppend([], b.commission);
    SumAppend([b.commission], b.commissionGst);
    SumAppend([b.commission, b.commissionGst], b.tcs);
    SumAppend([b.commission, b.commissionGst, b.tcs], b.tds);
    var base := [b.commission, b.commissionGst, b.tcs, b.tds];
    assert [] + [b.commission] == [b.commission];
    assert [b.commission] + [b.commissionGst] == [b.commission, b.commissionGst];
    assert [b.commission, b.commissionGst] + [b.tcs] == [b.commission, b.commissionGst, b.tcs];
    assert [b.commission, b.commissionGst, b.tcs] + [b.tds] == base;
    if b.borne == SellerBears {
      SumAppend(base, b.pspFee);
      SumAppend(base + [b.pspFee], b.pspFeeGst);
      assert Deductions(b) == base + [b.pspFee] + [b.pspFeeGst];
    } else {
      assert Deductions(b) == base;
    }
  }

  /** A rate of at most 100% of a non-negative int64 amount never overflows and
      is the exact half-up rounding. */
  lemma ShareFacts(amount: int, bps: int)
    requires 0 <= amount <= MAX_INT64 && 0 <= bps <= BPS
    ensures var r := Share(amount, bps);
            r.Ok? && 0 <= r.value <= amount
            && -BPS < 2 * (BPS * r.value) - 2 * (amount * bps) <= BPS
  {
    HalfUpRatio(amount, bps, BPS);
  }

  lemma ShareNonNegative(amount: int, bps: int)
    requires amount >= 0 && bps >= 0
    ensures var r := Share(amount, bps); r.Ok? ==> r.value >= 0
  {
    HalfUpRatio(amount, bps, BPS);
  }

  lemma GstShape(p: Policy, supply: Supply, listPrice: int)
    requires ValidPolicy(p) && listPrice >= 0 && Gst(p, supply, listPrice).Ok?
    ensures var g := Gst(p, supply, listPrice).value;
            && g.half >= 0 && g.igst >= 0 && g.taxTotal == 2 * g.half + g.igst
            && g.buyerTotal == listPrice + g.taxTotal <= MAX_INT64
            && (g.igst > 0 ==> g.half == 0)
  {
    hide ApplyBasisPoints;
    ShareNonNegative(listPrice, p.gstBps / 2);
    ShareNonNegative(listPrice, p.gstBps);
  }

  lemma ChargeShape(p: Policy, s: Seller, supply: Supply, l: Sale)
    requires ValidPolicy(p) && l.listPrice >= 0 && Rate(l.commissionBps) && Charge(p, s, supply, l).Ok?
    ensures var c := Charge(p, s, supply, l).value;
            && 0 <= c.commission <= MAX_INT64 && 0 <= c.commissionGst <= MAX_INT64
            && c.tcsHalf >= 0 && c.tcsIgst >= 0 && c.tcs == 2 * c.tcsHalf + c.tcsIgst <= MAX_INT64
            && 0 <= c.tds <= MAX_INT64
            && (c.tcsIgst > 0 ==> c.tcsHalf == 0)
  {
    hide ApplyBasisPoints, BelowThreshold;
    ShareNonNegative(l.listPrice, l.commissionBps);
    ShareNonNegative(Charge(p, s, supply, l).value.commission, p.commissionGstBps);
    ShareNonNegative(l.listPrice, p.tcsBps / 2);
    ShareNonNegative(l.listPrice, p.tcsBps);
    ShareNonNegative(l.listPrice, TdsRate(p, s, l.listPrice));
    ShareFits(l.listPrice, l.commissionBps);
    ShareFits(Charge(p, s, supply, l).value.commission, p.commissionGstBps);
    ShareFits(l.listPrice, TdsRate(p, s, l.listPrice));
  }

  lemma ShareFits(amount: int, bps: int)
    ensures Share(amount, bps).Ok? ==> Fits(Share(amount, bps).value)
  {
  }

  /** Everything priced from a non-negative list price is non-negative, the tax
      components sum to the tax total, and the tax to the buyer's total. */
  lemma PricedShape(p: Policy, s: Seller, b: Buyer, l: Sale)
    requires ValidPolicy(p) && 0 <= l.listPrice <= MAX_INT64 && Rate(l.commissionBps)
    requires l.pspFeeBps >= 0 && l.pspFeeGstBps >= 0
    requires Price(p, s, b, l).Ok?
    ensures var o := Price(p, s, b, l).value;
            && NonNegative(o) && o.borne == p.bearer && o.listPrice == l.listPrice
            && o.cgst == o.sgst && o.taxTotal == o.cgst + o.sgst + o.igst
            && o.buyerTotal == o.listPrice + o.taxTotal <= MAX_INT64
            && (o.igst > 0 ==> o.cgst == 0)
            && (o.tcsIgst > 0 ==> o.tcsCgst == 0 && o.tcsSgst == 0)
            && o.commission <= MAX_INT64 && o.commissionGst <= MAX_INT64 && o.tcs <= MAX_INT64
            && o.tds <= MAX_INT64 && o.pspFee <= MAX_INT64 && o.pspFeeGst <= MAX_INT64
  {
    hide Gst, Charge, Share;
    var o := Price(p, s, b, l).value;
    GstShape(p, o.supply, l.listPrice);
    ChargeShape(p, s, o.supply, l);
    ShareNonNegative(o.buyerTotal, l.pspFeeBps);
    ShareNonNegative(o.pspFee, l.pspFeeGstBps);
    ShareFits(o.buyerTotal, l.pspFeeBps);
    ShareFits(o.pspFee, l.pspFeeGstBps);
  }

  lemma PricingErrors(p: Policy, s: Seller, b: Buyer, l: Sale)
    ensures Price(p, s, b, l).Err? ==> Price(p, s, b, l).error.Arithmetic?
  {
    hide ApplyBasisPoints;
  }

  lemma {:induction false} SubtractionErrors(from: int, ds: seq<int>)
    ensures SubtractAll(from, ds).Err? ==> SubtractAll(from, ds).error == Arithmetic(Overflow)
    ensures SubtractAll(from, ds).Ok? && ds != [] ==> Fits(SubtractAll(from, ds).value)
  {
    if ds == [] {
    } else {
      SubtractionErrors(from, ds[..|ds| - 1]);
    }
  }

  /** A breakdown whose net is what the deductions leave passes every check. */
  lemma SettledPassesVerify(o: Breakdown, net: int)
    requires NonNegative(o) && o.cgst == o.sgst && o.taxTotal == o.cgst + o.sgst + o.igst
    requires o.buyerTotal == o.listPrice + o.taxTotal <= MAX_INT64
    requires (o.igst > 0 ==> o.cgst == 0) && (o.tcsIgst > 0 ==> o.tcsCgst == 0 && o.tcsSgst == 0)
    requires net == o.buyerTotal - Sum(Deductions(o)) && net >= 0
    ensures forall m :: Verify(o.(sellerNet := net, platformMargin := m))
                        && Distributed(o.(sellerNet := net, platformMargin := m)) == o.buyerTotal
  {
    SumOfDeductions(o);
  }

  lemma SettleNeverFailsTheCheck(o: Breakdown)
    requires NonNegative(o) && o.cgst == o.sgst && o.taxTotal == o.cgst + o.sgst + o.igst
    requires o.buyerTotal == o.listPrice + o.taxTotal <= MAX_INT64
    requires (o.igst > 0 ==> o.cgst == 0) && (o.tcsIgst > 0 ==> o.tcsCgst == 0 && o.tcsSgst == 0)
    ensures var r := Settle(o);
            && r != Err(Inconsistent)
            && (r.Ok? ==> Verify(r.value) && Distributed(r.value) == r.value.buyerTotal
                          && r.value.borne == o.borne && r.value.listPrice == o.listPrice)
  {
    SubtractAllIs(o.buyerTotal, Deductions(o));
    SubtractionErrors(o.buyerTotal, Deductions(o));
    var net := SubtractAll(o.buyerTotal, Deductions(o));
    hide Sum;
    if net.Ok? && net.value >= 0 {
      SettledPassesVerify(o, net.value);
      var margin := if o.borne == Platform then Minus(o.commission, o.pspFee) else Ok(o.commission);
      if margin.Ok? {
        assert Verify(o.(sellerNet := net.value, platformMargin := margin.value));
      }
    }
  }

  /** Under every valid policy and rate, the self-check cannot fail: whatever
      Compute refuses, it refuses before the check, and whatever it returns
      distributes the buyer's payment completely. */
  lemma VerifyNeverFails(p: Policy, s: Seller, b: Buyer, l: Sale)
    requires l.listPrice <= MAX_INT64 && l.pspFeeBps >= 0 && l.pspFeeGstBps >= 0
    ensures ComputeSpec(p, s, b, l) != Err(Inconsistent)
    ensures var r := ComputeSpec(p, s, b, l);
            r.Ok? ==> Verify(r.value) && Distributed(r.value) == r.value.buyerTotal
                      && r.value.borne == p.bearer && r.value.listPrice == l.listPrice
  {
    PricingErrors(p, s, b, l);
    if ValidPolicy(p) && l.listPrice >= 0 && Rate(l.commissionBps) && Price(p, s, b, l).Ok? {
      PricedShape(p, s, b, l);
      hide Price, Settle, Verify, Distributed, NonNegative;
      SettleNeverFailsTheCheck(Price(p, s, b, l).value);
    }
  }

  /** Tax charged to the buyer on a list price. */
  function TaxOn(p: Policy, s: Seller, b: Buyer, listPrice: int): int {
    match Classify(s, b)
    case IntraState => var half := Share(listPrice, p.gstBps / 2); if half.Ok? then 2 * half.value else 0
    case InterState => var igst := Share(listPrice, p.gstBps); if igst.Ok? then igst.value else 0
    case _ => 0
  }

  lemma GstSucceedsIff(s: Seller, b: Buyer, listPrice: int)
    requires 0 <= listPrice <= MAX_INT64
    ensures var g := Gst(DEFAULT_POLICY, Classify(s, b), listPrice);
            var total := listPrice + TaxOn(DEFAULT_POLICY, s, b, listPrice);
            && (g.Ok? <==> total <= MAX_INT64)
            && (g.Ok? ==> g.value.buyerTotal == total)
  {
    hide ApplyBasisPoints;
    ShareFacts(listPrice, 900);
    ShareFacts(listPrice, 1800);
  }

  lemma ChargeSucceeds(s: Seller, supply: Supply, l: Sale)
    requires 0 <= l.listPrice <= MAX_INT64 && 0 <= l.commissionBps <= 3000
    ensures Charge(DEFAULT_POLICY, s, supply, l).Ok?
    ensures var c := Charge(DEFAULT_POLICY, s, supply, l).value;
            c.commission + c.commissionGst + c.tcs + c.tds <= l.listPrice
  {
    hide Share, TdsRate, CollectsTcs;
    var L := l.listPrice;
    var rate := TdsRate(DEFAULT_POLICY, s, L);
    DefaultTdsRate(s, L);
    ShareFacts(L, l.commissionBps);
    ShareFacts(Share(L, l.commissionBps).value, 1800);
    ShareFacts(L, 50);
    ShareFacts(L, 100);
    TdsAtMostFivePercent(L, rate);
    var collects := CollectsTcs(DEFAULT_POLICY, s, supply);
    var c := Share(L, l.commissionBps).value;
    DeductionsFit(L, c, Share(c, 1800).value,
                  if collects && supply == IntraState then Share(L, 50).value else 0,
                  if collects && supply != IntraState then Share(L, 100).value else 0,
                  if rate > 0 then Share(L, rate).value else 0,
                  l.commissionBps);
  }

  lemma DefaultTdsRate(s: Seller, L: int)
    ensures 0 <= TdsRate(DEFAULT_POLICY, s, L) <= 500
  {
    hide BelowThreshold;
  }

  lemma TdsAtMostFivePercent(L: int, rate: int)
    requires 0 <= L <= MAX_INT64 && 0 <= rate <= 500
    ensures var r := Share(L, rate);
            r.Ok? && 0 <= r.value <= L && 2 * (BPS * r.value) - 2 * (L * 500) <= BPS
  {
    hide Share;
    ShareFacts(L, rate);
    MulMono(rate, 500, L);
  }

  /** The default policy prices every list price whose buyer total fits in int64. */
  lemma PriceSucceedsIff(s: Seller, b: Buyer, l: Sale)
    requires 0 <= l.listPrice <= MAX_INT64 && 0 <= l.commissionBps <= 3000
    requires Rate(l.pspFeeBps) && Rate(l.pspFeeGstBps)
    ensures var r := Price(DEFAULT_POLICY, s, b, l);
            && (r.Ok? <==> l.listPrice + TaxOn(DEFAULT_POLICY, s, b, l.listPrice) <= MAX_INT64)
            && (r.Ok? ==> r.value.commission + r.value.commissionGst + r.value.tcs + r.value.tds <= l.listPrice)
  {
    hide Gst, Charge, Share, TaxOn;
    GstSucceedsIff(s, b, l.listPrice);
    ChargeSucceeds(s, Classify(s, b), l);
    var total := l.listPrice + TaxOn(DEFAULT_POLICY, s, b, l.listPrice);
    TaxNonNegative(DEFAULT_POLICY, s, b, l.listPrice);
    if total <= MAX_INT64 {
      ShareFacts(total, l.pspFeeBps);
      ShareFacts(Share(total, l.pspFeeBps).value, l.pspFeeGstBps);
    }
  }

  lemma TaxNonNegative(p: Policy, s: Seller, b: Buyer, listPrice: int)
    requires ValidPolicy(p) && listPrice >= 0
    ensures TaxOn(p, s, b, listPrice) >= 0
  {
    hide ApplyBasisPoints;
    ShareNonNegative(listPrice, p.gstBps / 2);
    ShareNonNegative(listPrice, p.gstBps);
  }

  /** Commission of at most 30%, GST on it, TCS and TDS, each rounded half-up,
      never take more than the list price. */
  lemma DeductionsFit(L: int, c: int, cg: int, th: int, ti: int, td: int, bps: int)
    requires L >= 0 && 0 <= bps <= 3000
    requires c >= 0 && cg >= 0 && th >= 0 && ti >= 0 && td >= 0
    requires 2 * (BPS * c) - 2 * (L * bps) <= BPS
    requires 2 * (BPS * cg) - 2 * (c * 1800) <= BPS
    requires 2 * (BPS * th) - 2 * (L * 50) <= BPS
    requires 2 * (BPS * ti) - 2 * (L * 100) <= BPS
    requires 2 * (BPS * td) - 2 * (L * 500) <= BPS
    requires th == 0 || ti == 0
    ensures c + cg + 2 * th + ti + td <= L
  {
    MulMono(bps, 3000, L);
  }

  /** A platform-borne breakdown whose deductions stay within the list price settles. */
  lemma SettleSucceeds(o: Breakdown)
    requires NonNegative(o) && o.borne == Platform && o.buyerTotal == o.listPrice + o.taxTotal <= MAX_INT64
    requires o.commission + o.commissionGst + o.tcs + o.tds <= o.listPrice
    requires o.commission <= MAX_INT64 && o.pspFee <= MAX_INT64
    ensures Settle(o) == Err(Inconsistent)
            || (Settle(o).Ok? && Settle(o).value.sellerNet >= Settle(o).value.taxTotal)
  {
    SumOfDeductions(o);
    hide Sum;
    SubtractAllIs(o.buyerTotal, Deductions(o));
  }

  /** With the default policy and a commission of at most 30%, Compute succeeds
      exactly when the buyer's total fits in int64: rounding every deduction up
      can never make the deductions exceed the payment. */
  lemma {:induction false} DefaultPolicyNeverOverdraws(s: Seller, b: Buyer, l: Sale)
    requires 0 <= l.listPrice <= MAX_INT64 && 0 <= l.commissionBps <= 3000
    requires Rate(l.pspFeeBps) && Rate(l.pspFeeGstBps)
    ensures var r := ComputeSpec(DEFAULT_POLICY, s, b, l);
            && r != Err(DeductionsExceed) && r != Err(Inconsistent)
            && (r.Ok? <==> l.listPrice + TaxOn(DEFAULT_POLICY, s, b, l.listPrice) <= MAX_INT64)
            && (r.Ok? ==> r.value.sellerNet >= r.value.taxTotal)
  {
    var p := DEFAULT_POLICY;
    PriceSucceedsIff(s, b, l);
    VerifyNeverFails(p, s, b, l);
    PricingErrors(p, s, b, l);
    if Price(p, s, b, l).Ok? {
      PricedShape(p, s, b, l);
      hide Price, TaxOn;
      SettleSucceeds(Price(p, s, b, l).value);
    }
  }

  // ---- what each line is ---------------------------------------------------------

  /** v is the half-up share of an amount at a rate. */
  predicate IsShare(v: int, amount: int, bps: int) {
    IsHalfUp(v, amount * bps, BPS)
  }

  lemma SharesAre(amount: int, bps: int)
    requires amount >= 0 && bps >= 0
    ensures Share(amount, bps).Ok? ==> IsShare(Share(amount, bps).value, amount, bps)
  {
    HalfUpRatio(amount, bps, BPS);
  }

  /** GST is due in two equal halves within the seller's state, as one line across
      states, and not at all on exports or from an unregistered seller. */
  predicate GstLinesAre(p: Policy, o: Breakdown) {
    && (if o.supply == IntraState then IsShare(o.cgst, o.listPrice, p.gstBps / 2) else o.cgst == 0)
    && (if o.supply == InterState then IsShare(o.igst, o.listPrice, p.gstBps) else o.igst == 0)
    && o.sgst == o.cgst && o.taxTotal == o.cgst + o.sgst + o.igst && o.buyerTotal == o.listPrice + o.taxTotal
  }

  /** TCS follows the place of supply; TDS is due above the threshold, or always
      without a PAN. */
  predicate WithholdingIs(p: Policy, s: Seller, o: Breakdown) {
    && (if CollectsTcs(p, s, o.supply) && o.supply == IntraState then IsShare(o.tcsCgst, o.listPrice, p.tcsBps / 2)
        else o.tcsCgst == 0)
    && (if CollectsTcs(p, s, o.supply) && o.supply != IntraState then IsShare(o.tcsIgst, o.listPrice, p.tcsBps)
        else o.tcsIgst == 0)
    && o.tcsSgst == o.tcsCgst && o.tcs == o.tcsCgst + o.tcsSgst + o.tcsIgst
    && (if TdsRate(p, s, o.listPrice) > 0 then IsShare(o.tds, o.listPrice, TdsRate(p, s, o.listPrice)) else o.tds == 0)
  }

  /** Commission is charged on the list price, never on the tax; its GST on the
      commission; the processing fee on what the buyer pays. */
  predicate ChargesAre(p: Policy, l: Sale, o: Breakdown) {
    && IsShare(o.commission, l.listPrice, l.commissionBps)
    && IsShare(o.commissionGst, o.commission, p.commissionGstBps)
    && IsShare(o.pspFee, o.buyerTotal, l.pspFeeBps)
    && IsShare(o.pspFeeGst, o.pspFee, l.pspFeeGstBps)
    && o.platformMargin == if p.bearer == Platform then o.commission - o.pspFee else o.commission
  }

  lemma GstIs(p: Policy, supply: Supply, listPrice: int)
    requires ValidPolicy(p) && listPrice >= 0 && Gst(p, supply, listPrice).Ok?
    ensures var g := Gst(p, supply, listPrice).value;
            && (if supply == IntraState then IsShare(g.half, listPrice, p.gstBps / 2) else g.half == 0)
            && (if supply == InterState then IsShare(g.igst, listPrice, p.gstBps) else g.igst == 0)
            && g.taxTotal == 2 * g.half + g.igst && g.buyerTotal == listPrice + g.taxTotal
  {
    hide Share, IsShare;
    SharesAre(listPrice, p.gstBps / 2);
    SharesAre(listPrice, p.gstBps);
  }

  lemma ChargeIs(p: Policy, s: Seller, supply: Supply, l: Sale)
    requires ValidPolicy(p) && l.listPrice >= 0 && Rate(l.commissionBps) && Charge(p, s, supply, l).Ok?
    ensures var c := Charge(p, s, supply, l).value;
            var collects := CollectsTcs(p, s, supply);
            && IsShare(c.commission, l.listPrice, l.commissionBps)
            && IsShare(c.commissionGst, c.commission, p.commissionGstBps)
            && (if collects && supply == IntraState then IsShare(c.tcsHalf, l.listPrice, p.tcsBps / 2)
                else c.tcsHalf == 0)
            && (if collects && supply != IntraState then IsShare(c.tcsIgst, l.listPrice, p.tcsBps) else c.tcsIgst == 0)
            && c.tcs == 2 * c.tcsHalf + c.tcsIgst
            && (if TdsRate(p, s, l.listPrice) > 0 then IsShare(c.tds, l.listPrice, TdsRate(p, s, l.listPrice))
                else c.tds == 0)
  {
    hide Share, IsShare, CollectsTcs, TdsRate;
    ShareNonNegative(l.listPrice, l.commissionBps);
    SharesAre(l.listPrice, l.commissionBps);
    SharesAre(Charge(p, s, supply, l).value.commission, p.commissionGstBps);
    SharesAre(l.listPrice, p.tcsBps / 2);
    SharesAre(l.listPrice, p.tcsBps);
    if TdsRate(p, s, l.listPrice) > 0 { SharesAre(l.listPrice, TdsRate(p, s, l.listPrice)); }
  }

  lemma PriceIs(p: Policy, s: Seller, b: Buyer, l: Sale)
    requires ValidPolicy(p) && 0 <= l.listPrice <= MAX_INT64 && Rate(l.commissionBps)
    requires l.pspFeeBps >= 0 && l.pspFeeGstBps >= 0 && Price(p, s, b, l).Ok?
    ensures var o := Price(p, s, b, l).value;
            && GstLinesAre(p, o) && WithholdingIs(p, s, o)
            && IsShare(o.commission, l.listPrice, l.commissionBps)
            && IsShare(o.commissionGst, o.commission, p.commissionGstBps)
            && IsShare(o.pspFee, o.buyerTotal, l.pspFeeBps) && IsShare(o.pspFeeGst, o.pspFee, l.pspFeeGstBps)
  {
    hide Gst, Charge, Share, IsShare, CollectsTcs, TdsRate;
    var o := Price(p, s, b, l).value;
    GstShape(p, o.supply, l.listPrice);
    GstIs(p, o.supply, l.listPrice);
    ChargeIs(p, s, o.supply, l);
    ShareNonNegative(o.buyerTotal, l.pspFeeBps);
    SharesAre(o.buyerTotal, l.pspFeeBps);
    SharesAre(o.pspFee, l.pspFeeGstBps);
  }

  lemma SettleKeeps(o: Breakdown)
    requires Settle(o).Ok?
    ensures var r := Settle(o).value;
            && r == o.(sellerNet := r.sellerNet, platformMargin := r.platformMargin)
            && r.platformMargin == (if o.borne == Platform then o.commission - o.pspFee else o.commission)
            && r.sellerNet == o.buyerTotal - Sum(Deductions(o))
  {
    hide Verify, Sum;
    SubtractAllIs(o.buyerTotal, Deductions(o));
  }

  /** Every line of every breakdown is its own rate of its own base, rounded to the
      nearest, and the seller receives the payment less exactly the deductions. */
  lemma EveryLineIsItsRate(p: Policy, s: Seller, b: Buyer, l: Sale)
    requires l.listPrice <= MAX_INT64 && l.pspFeeBps >= 0 && l.pspFeeGstBps >= 0
    requires ComputeSpec(p, s, b, l).Ok?
    ensures var o := ComputeSpec(p, s, b, l).value;
            && GstLinesAre(p, o) && WithholdingIs(p, s, o) && ChargesAre(p, l, o)
            && o.sellerNet == o.buyerTotal - o.commission - o.commissionGst - o.tcs - o.tds
                              - if p.bearer == SellerBears then o.pspFee + o.pspFeeGst else 0
  {
    hide Price, Settle, Verify, IsShare, CollectsTcs, TdsRate, Sum;
    PriceIs(p, s, b, l);
    PricedShape(p, s, b, l);
    SettleKeeps(Price(p, s, b, l).value);
    SumOfDeductions(Price(p, s, b, l).value);
  }

  /** The example of docs/arch/04-money-flow.md: a sale of 1,000 rupees across state
      lines at 9% commission goes through, and comes out to the paise. */
  lemma WorkedExample()
    ensures var r := ComputeSpec(DEFAULT_POLICY, Seller(true, 33, true, false, 0, India), Buyer(India, 29),
                                 Sale(100_000, 900, 200, 1800));
            && r.Ok?
            && var b := r.value;
            && b.supply == InterState && b.igst == 18_000 && b.buyerTotal == 118_000
            && b.commission == 9_000 && b.commissionGst == 1_620 && b.tcs == 1_000 && b.tds == 100
            && b.pspFee == 2_360 && b.pspFeeGst == 425
            && b.sellerNet == 106_280 && b.platformMargin == 6_640
  {
    hide ComputeSpec, Share;
    var s, buyer, l := Seller(true, 33, true, false, 0, India), Buyer(India, 29), Sale(100_000, 900, 200, 1800);
    ShareFacts(l.listPrice, 1800);
    DefaultPolicyNeverOverdraws(s, buyer, l);
    var b := ComputeSpec(DEFAULT_POLICY, s, buyer, l).value;
    EveryLineIsItsRate(DEFAULT_POLICY, s, buyer, l);
    SupplyIs(DEFAULT_POLICY, s, buyer, l);
    HalfUpUnique(b.igst, 18_000, 100_000 * 1800, BPS);
    HalfUpUnique(b.commission, 9_000, 100_000 * 900, BPS);
    HalfUpUnique(b.commissionGst, 1_620, 9_000 * 1800, BPS);
    HalfUpUnique(b.tcsIgst, 1_000, 100_000 * 100, BPS);
    HalfUpUnique(b.tds, 100, 100_000 * 10, BPS);
    HalfUpUnique(b.pspFee, 2_360, 118_000 * 200, BPS);
    HalfUpUnique(b.pspFeeGst, 425, 2_360 * 1800, BPS);
  }

  lemma SupplyIs(p: Policy, s: Seller, b: Buyer, l: Sale)
    ensures ComputeSpec(p, s, b, l).Ok? ==>
              ComputeSpec(p, s, b, l).value.supply == Classify(s, b)
              && ComputeSpec(p, s, b, l).value.listPrice == l.listPrice
  {
    hide Gst, Charge, Share, Verify, SubtractAll;
  }
}
