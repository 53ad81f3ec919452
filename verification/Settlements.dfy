/** Netting outstanding recoveries against an outgoing settlement. */
module Settlements {
  import opened Money
  import opened Ledger
  import opened Orders
  import opened Postings

  /** A row of settlement_offsets as the code leaves it. */
  predicate SaneOffset(f: Offset) {
    && 0 < f.amount <= STORE_MAX
    && 0 <= f.applied <= f.amount
    && f.status == if f.applied == f.amount then Settled else if f.applied == 0 then Outstanding else PartiallyApplied
  }

  predicate SaneOffsets(offsets: seq<Offset>) {
    forall x :: 0 <= x < |offsets| ==> SaneOffset(offsets[x])
  }

  function Owing(f: Offset): int {
    f.amount - f.applied
  }

  function OwingTotal(offsets: seq<Offset>): int {
    if offsets == [] then 0 else OwingTotal(offsets[..|offsets| - 1]) + Owing(offsets[|offsets| - 1])
  }

  /** What a seller still owes in rows lo..hi. */
  function OwedBetween(offsets: seq<Offset>, seller: nat, lo: nat, hi: nat): int
    requires lo <= hi <= |offsets|
    decreases hi - lo
  {
    if lo == hi then 0
    else (if offsets[lo].seller == seller then Owing(offsets[lo]) else 0) + OwedBetween(offsets, seller, lo + 1, hi)
  }

  /** The share of row x when `available` is spent on rows lo.. oldest first. */
  function TakeAt(offsets: seq<Offset>, seller: nat, available: int, lo: nat, x: nat): int
    requires lo <= x < |offsets|
  {
    if offsets[x].seller != seller then 0
    else Positive(Min(Owing(offsets[x]), available - OwedBetween(offsets, seller, lo, x)))
  }

  lemma {:induction false} OwingUpdate(offsets: seq<Offset>, x: nat, f: Offset)
    requires x < |offsets|
    ensures OwingTotal(offsets[x := f]) == OwingTotal(offsets) - Owing(offsets[x]) + Owing(f)
  {
    var n := |offsets| - 1;
    if x < n {
      OwingUpdate(offsets[..n], x, f);
      assert offsets[x := f][..n] == offsets[..n][x := f];
    } else {
      assert offsets[x := f][..n] == offsets[..n];
    }
  }

  lemma {:induction false} OwingConcat(a: seq<Offset>, b: seq<Offset>)
    ensures OwingTotal(a + b) == OwingTotal(a) + OwingTotal(b)
  {
    if b == [] {
      assert a + b == a;
    } else {
      var init := b[..|b| - 1];
      OwingConcat(a, init);
      assert (a + b)[..|a + b| - 1] == a + init;
    }
  }

  lemma {:induction false} OwedNonNegative(offsets: seq<Offset>, seller: nat, lo: nat, hi: nat)
    requires SaneOffsets(offsets) && lo <= hi <= |offsets|
    ensures OwedBetween(offsets, seller, lo, hi) >= 0
    decreases hi - lo
  {
    if lo == hi {
    } else {
      OwedNonNegative(offsets, seller, lo + 1, hi);
    }
  }

  /** Rows before lo do not matter. */
  lemma {:induction false} OwedFrame(a: seq<Offset>, b: seq<Offset>, seller: nat, lo: nat, hi: nat)
    requires |a| == |b| && lo <= hi <= |a|
    requires forall x :: lo <= x < hi ==> a[x] == b[x]
    ensures OwedBetween(a, seller, lo, hi) == OwedBetween(b, seller, lo, hi)
    decreases hi - lo
  {
    if lo == hi {
    } else {
      OwedFrame(a, b, seller, lo + 1, hi);
    }
  }

  lemma OffsetEntryAccepted(k: nat, take: int, seller: nat)
    requires 0 < take <= STORE_MAX
    ensures Accepted(OffsetEntry(k, take, seller))
    ensures forall a :: Net(OffsetEntry(k, take, seller).lines, a)
                        == if a == Payable(seller) then take else if a == SellerOffset then -take else 0
  {
    TwoLines(OffsetKey(k, take), Payable(seller), SellerOffset, take);
  }

  /** A two-line entry moving a storable amount between two accounts. */
  lemma TwoLines(key: Key, from: Account, to: Account, amount: int)
    requires 0 < amount <= STORE_MAX && from != to
    ensures var e := Entry(key, INR, [Dr(from, amount), Cr(to, amount)]);
            && Accepted(e)
            && forall a :: Net(e.lines, a) == if a == from then amount else if a == to then -amount else 0
  {
    var d, c := Dr(from, amount), Cr(to, amount);
    OneLine(d);
    OneLine(c);
    assert [d] + [c] == [d, c];
    TotalConcat([d], [c], Debit);
    TotalConcat([d], [c], Credit);
    forall a ensures Net([d, c], a) == Net([d], a) + Net([c], a) { NetConcat([d], [c], a); }
  }

  /** A netting with one more row in front. */
  function WithTake(n: Netting, take: int, collided: bool): Netting {
    n.(applied := take + n.applied, replayed := n.replayed + if collided then take else 0)
  }

  /** What one open row contributes: a positive, storable part, accepted by the
      ledger, that leaves a sane row. */
  lemma TakeIsSane(j: seq<Entry>, offsets: seq<Offset>, seller: nat, remaining: int, k: nat)
    requires SaneOffsets(offsets) && k < |offsets| && offsets[k].seller == seller && Owing(offsets[k]) > 0
             && remaining > 0
    ensures var take := Min(Owing(offsets[k]), remaining);
            var e := OffsetEntry(k, take, seller);
            && 0 < take <= STORE_MAX && IsOpen(offsets[k], seller)
            && PostSpec(j, e) == Ok(if HasKey(j, e.key) then j else j + [e])
            && SaneOffsets(offsets[k := ApplyTo(offsets[k], take)])
  {
    hide PostSpec, HasKey, Accepted;
    assert SaneOffset(offsets[k]);
    var take := Min(Owing(offsets[k]), remaining);
    OffsetEntryAccepted(k, take, seller);
    PostCases(j, OffsetEntry(k, take, seller));
    assert SaneOffset(ApplyTo(offsets[k], take));
  }

  /** The recursion of applyOffsets on one open row, with its posting resolved. */
  lemma ApplyUnfold(j: seq<Entry>, offsets: seq<Offset>, seller: nat, remaining: int, k: nat)
    requires SaneOffsets(offsets) && k < |offsets| && offsets[k].seller == seller && Owing(offsets[k]) > 0
             && remaining > 0
    ensures var take := Min(Owing(offsets[k]), remaining);
            var e := OffsetEntry(k, take, seller);
            var posted := if HasKey(j, e.key) then j else j + [e];
            var rest := ApplySpec(posted, offsets[k := ApplyTo(offsets[k], take)], seller, remaining - take, k + 1);
            && 0 < take <= STORE_MAX
            && (rest.Ok? ==>
                  ApplySpec(j, offsets, seller, remaining, k)
                  == Ok(WithTake(rest.value, take, HasKey(j, OffsetKey(k, take)))))
            && SaneOffsets(offsets[k := ApplyTo(offsets[k], take)])
  {
    hide PostSpec, HasKey, SaneOffsets, IsOpen, ApplyTo;
    TakeIsSane(j, offsets, seller, remaining, k);
  }

  lemma ApplySkips(j: seq<Entry>, offsets: seq<Offset>, seller: nat, remaining: int, k: nat)
    requires SaneOffsets(offsets) && k < |offsets|
    requires offsets[k].seller != seller || Owing(offsets[k]) <= 0
    ensures ApplySpec(j, offsets, seller, remaining, k) == ApplySpec(j, offsets, seller, remaining, k + 1)
  {
  }

  lemma ApplyStops(j: seq<Entry>, offsets: seq<Offset>, seller: nat, remaining: int, k: nat)
    requires SaneOffsets(offsets) && k < |offsets| && remaining <= 0
    requires offsets[k].seller == seller && Owing(offsets[k]) > 0
    ensures ApplySpec(j, offsets, seller, remaining, k) == Ok(Netting(j, offsets, 0, 0))
  {
    assert SaneOffset(offsets[k]);
  }

  /** What became of the rows: those before k are untouched, and each later one
      has its own share of the available amount applied, nothing else changed. */
  predicate Spent(offsets: seq<Offset>, after: seq<Offset>, seller: nat, available: int, k: nat) {
    && |after| == |offsets|
    && (forall x :: 0 <= x < k && x < |offsets| ==> after[x] == offsets[x])
    && (forall x :: k <= x < |offsets| ==>
          && after[x].seller == offsets[x].seller && after[x].amount == offsets[x].amount
          && after[x].applied == offsets[x].applied + TakeAt(offsets, seller, available, k, x))
  }

  /** Row by row, applyOffsets spends the available amount on the seller's own
      rows, oldest first, and touches nothing else. */
  lemma {:induction false} ApplyClosedForm(j: seq<Entry>, offsets: seq<Offset>, seller: nat, available: int, k: nat)
    requires SaneOffsets(offsets) && k <= |offsets| && available >= 0
    ensures var r := ApplySpec(j, offsets, seller, available, k);
            r.Ok? && SaneOffsets(r.value.offsets) && Spent(offsets, r.value.offsets, seller, available, k)
    decreases |offsets| - k
  {
    hide TakeAt, HasKey, OffsetEntry, PostSpec, Spent;
    if k == |offsets| {
      SpentAtEnd(offsets, seller, available, k);
    } else {
      var f := offsets[k];
      assert SaneOffset(f);
      if f.seller != seller || Owing(f) <= 0 {
        ApplySkips(j, offsets, seller, available, k);
        ApplyClosedForm(j, offsets, seller, available, k + 1);
        SpentStep(offsets, offsets, ApplySpec(j, offsets, seller, available, k + 1).value.offsets, seller, available,
                  available, k);
      } else if available <= 0 {
        ApplyStops(j, offsets, seller, available, k);
        SpentAtEnd(offsets, seller, available, k);
      } else {
        ApplyUnfold(j, offsets, seller, available, k);
        var take := Min(Owing(f), available);
        var e := OffsetEntry(k, take, seller);
        var next := offsets[k := ApplyTo(f, take)];
        var posted := if HasKey(j, e.key) then j else j + [e];
        ApplyClosedForm(posted, next, seller, available - take, k + 1);
        SpentStep(offsets, next, ApplySpec(posted, next, seller, available - take, k + 1).value.offsets,
                  seller, available, available - take, k);
      }
    }
  }

  lemma SpentAtEnd(offsets: seq<Offset>, seller: nat, available: int, k: nat)
    requires SaneOffsets(offsets) && k <= |offsets|
    requires k == |offsets| || available == 0
    ensures Spent(offsets, offsets, seller, available, k)
  {
    if k < |offsets| {
      NothingToTake(offsets, seller, k);
    }
  }

  lemma SpentStep(offsets: seq<Offset>, next: seq<Offset>, after: seq<Offset>, seller: nat, available: int, left: int,
                  k: nat)
    requires SaneOffsets(offsets) && k < |offsets| && available >= 0
    requires left == available - (if offsets[k].seller == seller then Min(Owing(offsets[k]), available) else 0)
    requires |next| == |offsets| && forall x :: 0 <= x < |offsets| && x != k ==> next[x] == offsets[x]
    requires Spent(next, after, seller, left, k + 1)
    requires next[k].seller == offsets[k].seller && next[k].amount == offsets[k].amount
    requires next[k].applied == offsets[k].applied + available - left
    ensures Spent(offsets, after, seller, available, k)
  {
    TakeShift(offsets, next, seller, available, left, k);
    hide TakeAt;
  }

  /** After row k has taken its part, the later rows take the same as before. */
  lemma TakeShift(offsets: seq<Offset>, next: seq<Offset>, seller: nat, available: int, left: int, k: nat)
    requires SaneOffsets(offsets) && |next| == |offsets| && k < |offsets| && available >= 0
    requires forall x :: k < x < |offsets| ==> next[x] == offsets[x]
    requires left == available - (if offsets[k].seller == seller then Min(Owing(offsets[k]), available) else 0)
    ensures TakeAt(offsets, seller, available, k, k) == available - left
    ensures forall x :: k < x < |offsets| ==>
                          TakeAt(offsets, seller, available, k, x) == TakeAt(next, seller, left, k + 1, x)
  {
    assert SaneOffset(offsets[k]);
    forall x | k < x < |offsets|
      ensures TakeAt(offsets, seller, available, k, x) == TakeAt(next, seller, left, k + 1, x)
    {
      OwedFrame(offsets, next, seller, k + 1, x);
      OwedNonNegative(offsets, seller, k + 1, x);
    }
  }

  lemma NothingToTake(offsets: seq<Offset>, seller: nat, k: nat)
    requires SaneOffsets(offsets) && k <= |offsets|
    ensures forall x :: k <= x < |offsets| ==> TakeAt(offsets, seller, 0, k, x) == 0
  {
    forall x | k <= x < |offsets| ensures TakeAt(offsets, seller, 0, k, x) == 0 {
      OwedNonNegative(offsets, seller, k, x);
    }
  }

  /** In total, applyOffsets takes the smaller of what is available and what the
      seller owes, and reduces what is owed by exactly that. */
  lemma {:induction false} ApplyTakesTheMinimum(j: seq<Entry>, offsets: seq<Offset>, seller: nat, available: int,
                                                k: nat)
    requires SaneOffsets(offsets) && k <= |offsets| && available >= 0
    ensures var r := ApplySpec(j, offsets, seller, available, k);
            && r.Ok?
            && r.value.applied == Min(available, OwedBetween(offsets, seller, k, |offsets|))
            && OwingTotal(r.value.offsets) == OwingTotal(offsets) - r.value.applied
            && 0 <= r.value.replayed <= r.value.applied
    decreases |offsets| - k
  {
    hide HasKey, OffsetEntry, PostSpec;
    if k == |offsets| {
    } else {
      var f := offsets[k];
      assert SaneOffset(f);
      OwedNonNegative(offsets, seller, k + 1, |offsets|);
      if f.seller != seller || Owing(f) <= 0 {
        ApplySkips(j, offsets, seller, available, k);
        ApplyTakesTheMinimum(j, offsets, seller, available, k + 1);
      } else if available <= 0 {
        ApplyStops(j, offsets, seller, available, k);
      } else {
        ApplyUnfold(j, offsets, seller, available, k);
        var take := Min(Owing(f), available);
        var e := OffsetEntry(k, take, seller);
        var next := offsets[k := ApplyTo(f, take)];
        ApplyTakesTheMinimum(if HasKey(j, e.key) then j else j + [e], next, seller, available - take, k + 1);
        OwedFrame(offsets, next, seller, k + 1, |offsets|);
        OwingUpdate(offsets, k, ApplyTo(f, take));
      }
    }
  }

  /** First in, first out: a newer recovery is touched only once every older one
      of the same seller is settled. */
  lemma OldestFirst(j: seq<Entry>, offsets: seq<Offset>, seller: nat, available: int, a: nat, b: nat)
    requires SaneOffsets(offsets) && available >= 0 && a < b < |offsets|
    requires offsets[a].seller == seller
    requires var r := ApplySpec(j, offsets, seller, available, 0);
             r.Ok? && |r.value.offsets| == |offsets| && r.value.offsets[b] != offsets[b]
    ensures var r := ApplySpec(j, offsets, seller, available, 0);
            r.value.offsets[a].applied == offsets[a].amount && r.value.offsets[a].status == Settled
  {
    ApplyClosedForm(j, offsets, seller, available, 0);
    var r := ApplySpec(j, offsets, seller, available, 0).value.offsets;
    assert SaneOffset(r[a]) && SaneOffset(r[b]) && SaneOffset(offsets[b]) && SaneOffset(offsets[a]);
    OwedSplit(offsets, seller, 0, a, b);
    OwedNonNegative(offsets, seller, a + 1, b);
    OwedNonNegative(offsets, seller, 0, a);
  }

  lemma {:induction false} OwedSplit(offsets: seq<Offset>, seller: nat, lo: nat, mid: nat, hi: nat)
    requires lo <= mid < hi <= |offsets|
    ensures OwedBetween(offsets, seller, lo, hi)
            == OwedBetween(offsets, seller, lo, mid)
               + (if offsets[mid].seller == seller then Owing(offsets[mid]) else 0)
               + OwedBetween(offsets, seller, mid + 1, hi)
    decreases mid - lo
  {
    if lo == mid {
    } else {
      OwedSplit(offsets, seller, lo + 1, mid, hi);
    }
  }

  /** Some row's share meets a key that an earlier application of the same amount
      to the same row has used. */
  predicate Collides(j: seq<Entry>, offsets: seq<Offset>, seller: nat, available: int, k: nat) {
    exists x :: k <= x < |offsets| && TakeAt(offsets, seller, available, k, x) > 0
                && HasKey(j, OffsetKey(x, TakeAt(offsets, seller, available, k, x)))
  }

  /** The part of row x's share that finds its key taken, and the sum from row lo on. */
  function ReplayAt(j: seq<Entry>, offsets: seq<Offset>, seller: nat, available: int, k: nat, x: nat): nat
    requires k <= x < |offsets|
  {
    var take := TakeAt(offsets, seller, available, k, x);
    if take > 0 && HasKey(j, OffsetKey(x, take)) then take else 0
  }

  function ReplayedFrom(j: seq<Entry>, offsets: seq<Offset>, seller: nat, available: int, k: nat, lo: nat): nat
    requires k <= lo <= |offsets|
    decreases |offsets| - lo
  {
    if lo == |offsets| then 0
    else ReplayAt(j, offsets, seller, available, k, lo) + ReplayedFrom(j, offsets, seller, available, k, lo + 1)
  }

  /** What goes unposted is exactly the shares whose keys were taken before. */
  lemma {:induction false} ReplaysExactly(j: seq<Entry>, offsets: seq<Offset>, seller: nat, available: int, k: nat)
    requires SaneOffsets(offsets) && k <= |offsets| && available >= 0
    ensures var r := ApplySpec(j, offsets, seller, available, k);
            r.Ok? && r.value.replayed == ReplayedFrom(j, offsets, seller, available, k, k)
    decreases |offsets| - k
  {
    hide TakeAt, HasKey, OffsetEntry, PostSpec;
    if k == |offsets| {
    } else {
      var f := offsets[k];
      assert SaneOffset(f);
      if f.seller != seller || Owing(f) <= 0 {
        ApplySkips(j, offsets, seller, available, k);
        ReplaysExactly(j, offsets, seller, available, k + 1);
        NothingTaken(offsets, seller, available, k);
        TakeShift(offsets, offsets, seller, available, available, k);
        ReplaysShift(j, offsets, available, k, j, offsets, available, seller, k + 1);
      } else if available <= 0 {
        ApplyStops(j, offsets, seller, available, k);
        NothingToTake(offsets, seller, k);
        NothingReplayed(j, offsets, seller, available, k, k);
      } else {
        ApplyUnfold(j, offsets, seller, available, k);
        var take := Min(Owing(f), available);
        var e := OffsetEntry(k, take, seller);
        OffsetEntryKey(k, take, seller);
        var posted := if HasKey(j, e.key) then j else j + [e];
        var next := offsets[k := ApplyTo(f, take)];
        ReplaysExactly(posted, next, seller, available - take, k + 1);
        TakeShift(offsets, next, seller, available, available - take, k);
        KeysAfterAppend(j, e);
        ReplaysShift(j, offsets, available, k, posted, next, available - take, seller, k + 1);
      }
    }
  }

  lemma OffsetEntryKey(k: nat, take: int, seller: nat)
    ensures OffsetEntry(k, take, seller).key == OffsetKey(k, take)
  {
  }

  lemma NothingTaken(offsets: seq<Offset>, seller: nat, available: int, k: nat)
    requires k < |offsets| && (offsets[k].seller != seller || Owing(offsets[k]) <= 0)
    ensures TakeAt(offsets, seller, available, k, k) == 0
  {
  }

  lemma {:induction false} NothingReplayed(j: seq<Entry>, offsets: seq<Offset>, seller: nat, available: int, k: nat,
                                           lo: nat)
    requires k <= lo <= |offsets| && forall x :: k <= x < |offsets| ==> TakeAt(offsets, seller, available, k, x) == 0
    ensures ReplayedFrom(j, offsets, seller, available, k, lo) == 0
    decreases |offsets| - lo
  {
    hide TakeAt, HasKey;
    if lo == |offsets| {
    } else {
      NothingReplayed(j, offsets, seller, available, k, lo + 1);
    }
  }

  /** The later rows replay the same after row k has taken its part. */
  lemma {:induction false} ReplaysShift(j: seq<Entry>, offsets: seq<Offset>, available: int, k: nat,
                                        posted: seq<Entry>, next: seq<Offset>, left: int, seller: nat, lo: nat)
    requires |next| == |offsets| && k < lo <= |offsets|
    requires forall x :: k < x < |offsets| ==>
                           TakeAt(offsets, seller, available, k, x) == TakeAt(next, seller, left, k + 1, x)
    requires forall x, t :: k < x < |offsets| ==> (HasKey(posted, OffsetKey(x, t)) <==> HasKey(j, OffsetKey(x, t)))
    ensures ReplayedFrom(j, offsets, seller, available, k, lo) == ReplayedFrom(posted, next, seller, left, k + 1, lo)
    decreases |offsets| - lo
  {
    hide TakeAt, HasKey;
    if lo == |offsets| {
    } else {
      ReplaysShift(j, offsets, available, k, posted, next, left, seller, lo + 1);
    }
  }

  lemma {:induction false} SomeReplay(j: seq<Entry>, offsets: seq<Offset>, seller: nat, available: int, k: nat, lo: nat)
    requires k <= lo <= |offsets|
    ensures ReplayedFrom(j, offsets, seller, available, k, lo) > 0
            <==> exists x :: lo <= x < |offsets| && ReplayAt(j, offsets, seller, available, k, x) > 0
    decreases |offsets| - lo
  {
    hide ReplayAt;
    if lo == |offsets| {
    } else {
      SomeReplay(j, offsets, seller, available, k, lo + 1);
    }
  }

  /** A part of the netting goes unposted exactly when a key collides. */
  lemma ReplaysIff(j: seq<Entry>, offsets: seq<Offset>, seller: nat, available: int, k: nat)
    requires k <= |offsets|
    ensures ReplayedFrom(j, offsets, seller, available, k, k) > 0 <==> Collides(j, offsets, seller, available, k)
  {
    hide TakeAt, HasKey;
    SomeReplay(j, offsets, seller, available, k, k);
    if Collides(j, offsets, seller, available, k) {
      var x :| k <= x < |offsets| && TakeAt(offsets, seller, available, k, x) > 0
               && HasKey(j, OffsetKey(x, TakeAt(offsets, seller, available, k, x)));
      assert ReplayAt(j, offsets, seller, available, k, x) > 0;
    }
  }

  // ---- journal effect --------------------------------------------------------

  /** The capture entries of one order. */
  function CapturesOf(j: seq<Entry>, o: nat): seq<Entry> {
    if j == [] then [] else
    var e := j[|j| - 1];
    CapturesOf(j[..|j| - 1], o) + if e.key.CaptureKey? && e.key.order == o then [e] else []
  }

  lemma CapturesAppend(j: seq<Entry>, e: Entry, o: nat)
    ensures CapturesOf(j + [e], o) == CapturesOf(j, o) + if e.key.CaptureKey? && e.key.order == o then [e] else []
  {
    assert (j + [e])[..|j|] == j;
  }

  /** Posting, as seen by balances, captures and keys. */
  lemma PostEffect(j: seq<Entry>, e: Entry)
    requires Sound(j) && Accepted(e)
    ensures var after := if HasKey(j, e.key) then j else j + [e];
            && PostSpec(j, e) == Ok(after) && Sound(after)
            && (forall a :: Balance(after, a) == Balance(j, a) + if HasKey(j, e.key) then 0 else Net(e.lines, a))
            && (forall key :: HasKey(after, key) <==> HasKey(j, key) || key == e.key)
            && (!e.key.CaptureKey? ==> forall o :: CapturesOf(after, o) == CapturesOf(j, o))
  {
    hide Accepted, Net, ValidateSpec;
    PostCases(j, e);
    PostKeepsSound(j, e);
    KeysAfterAppend(j, e);
    forall a ensures Balance(j + [e], a) == Balance(j, a) + Net(e.lines, a) { BalanceAppend(j, e, a); }
    forall o ensures !e.key.CaptureKey? ==> CapturesOf(j + [e], o) == CapturesOf(j, o) { CapturesAppend(j, e, o); }
  }

  function NettingEffect(n: Netting, seller: nat, a: Account): int {
    if a == Payable(seller) then n.applied - n.replayed
    else if a == SellerOffset then -(n.applied - n.replayed)
    else 0
  }

  /** The journal a netting leaves: sound, with what was posted moved from the
      seller's payable to the receivable, and only offset keys of existing rows
      added. */
  ghost predicate Netted(j: seq<Entry>, n: Netting, seller: nat, rows: nat) {
    && Sound(n.journal) && j <= n.journal
    && (forall a :: Balance(n.journal, a) == Balance(j, a) + NettingEffect(n, seller, a))
    && (forall key :: HasKey(j, key) ==> HasKey(n.journal, key))
    && (forall key :: HasKey(n.journal, key) ==> HasKey(j, key) || (key.OffsetKey? && key.offset < rows))
    && (forall o :: CapturesOf(n.journal, o) == CapturesOf(j, o))
  }

  lemma {:induction false} ApplyJournal(j: seq<Entry>, offsets: seq<Offset>, seller: nat, available: int, k: nat)
    requires SaneOffsets(offsets) && k <= |offsets| && available >= 0 && Sound(j)
    ensures var r := ApplySpec(j, offsets, seller, available, k);
            r.Ok? && Netted(j, r.value, seller, |offsets|)
    decreases |offsets| - k
  {
    hide Sound, HasKey, PostSpec, OffsetEntry, Netted;
    if k == |offsets| {
      NettedNothing(j, offsets, seller);
    } else {
      var f := offsets[k];
      assert SaneOffset(f);
      if f.seller != seller || Owing(f) <= 0 {
        ApplySkips(j, offsets, seller, available, k);
        ApplyJournal(j, offsets, seller, available, k + 1);
      } else if available <= 0 {
        ApplyStops(j, offsets, seller, available, k);
        NettedNothing(j, offsets, seller);
      } else {
        ApplyUnfold(j, offsets, seller, available, k);
        var take := Min(Owing(f), available);
        var e := OffsetEntry(k, take, seller);
        var posted := if HasKey(j, e.key) then j else j + [e];
        PostedIsSound(j, k, take, seller);
        var next := offsets[k := ApplyTo(f, take)];
        ApplyJournal(posted, next, seller, available - take, k + 1);
        NettedStep(j, k, take, ApplySpec(posted, next, seller, available - take, k + 1).value, seller, |offsets|);
      }
    }
  }

  lemma NettedNothing(j: seq<Entry>, offsets: seq<Offset>, seller: nat)
    requires Sound(j)
    ensures Netted(j, Netting(j, offsets, 0, 0), seller, |offsets|)
  {
  }

  lemma PostedIsSound(j: seq<Entry>, k: nat, take: int, seller: nat)
    requires Sound(j) && 0 < take <= STORE_MAX
    ensures var e := OffsetEntry(k, take, seller); Sound(if HasKey(j, e.key) then j else j + [e])
  {
    OffsetEntryAccepted(k, take, seller);
    hide Accepted, OffsetEntry;
    PostEffect(j, OffsetEntry(k, take, seller));
  }

  lemma NettedStep(j: seq<Entry>, k: nat, take: int, rest: Netting, seller: nat, rows: nat)
    requires Sound(j) && 0 < take <= STORE_MAX && k < rows
    requires var e := OffsetEntry(k, take, seller);
             Netted(if HasKey(j, e.key) then j else j + [e], rest, seller, rows)
    ensures Netted(j, WithTake(rest, take, HasKey(j, OffsetKey(k, take))), seller, rows)
  {
    var e := OffsetEntry(k, take, seller);
    OffsetEntryAccepted(k, take, seller);
    assert e.key == OffsetKey(k, take);
    hide Accepted, Sound, Balance, CapturesOf, HasKey, Net, PostSpec, OffsetEntry, Netted;
    PostEffect(j, e);
    NettedChain(j, if HasKey(j, e.key) then j else j + [e], e, rest, take, seller, rows);
  }

  lemma NettedChain(j: seq<Entry>, posted: seq<Entry>, e: Entry, rest: Netting, take: int, seller: nat, rows: nat)
    requires Netted(posted, rest, seller, rows) && j <= posted && e.key.OffsetKey? && e.key.offset < rows
    requires forall a ::
               Net(e.lines, a) == if a == Payable(seller) then take else if a == SellerOffset then -take else 0
    requires forall a :: Balance(posted, a) == Balance(j, a) + if HasKey(j, e.key) then 0 else Net(e.lines, a)
    requires forall key :: HasKey(posted, key) <==> HasKey(j, key) || key == e.key
    requires forall o :: CapturesOf(posted, o) == CapturesOf(j, o)
    ensures Netted(j, WithTake(rest, take, HasKey(j, e.key)), seller, rows)
  {
    hide Sound, Balance, CapturesOf, HasKey, Net;
  }

  // ---- the key collision ------------------------------------------------------

  /** Two equal partial recoveries against one row share a key: the second one
      is netted off the seller's payment and off the row, but never posted. */
  lemma EqualPartialRecoveriesCollide(seller: nat, amount: int, t: int)
    requires 0 < t && 2 * t < amount <= STORE_MAX
    ensures var before := [Offset(seller, amount, 0, Outstanding)];
            var first := ApplySpec([], before, seller, t, 0);
            && first.Ok? && first.value.applied == t && first.value.replayed == 0
            && var second := ApplySpec(first.value.journal, first.value.offsets, seller, t, 0);
            && second.Ok? && second.value.applied == t && second.value.replayed == t
            && second.value.journal == first.value.journal
            && OwingTotal(second.value.offsets) == amount - 2 * t
            && Balance(second.value.journal, SellerOffset) == -t
  {
    hide HasKey, ApplySpec, OwingTotal, Balance;
    var f := Offset(seller, amount, 0, Outstanding);
    var g := ApplyTo(f, t);
    var e := OffsetEntry(0, t, seller);
    PartialRecovery([], f, t);
    assert [] + [e] == [e];
    OffsetEntryAccepted(0, t, seller);
    hide Accepted, Net;
    OnlyEntry(e);
    PartialRecovery([e], g, t);
    OwingOne(ApplyTo(g, t));
  }

  lemma OnlyEntry(e: Entry)
    ensures HasKey([e], e.key) && forall k :: !HasKey([], k)
    ensures forall a :: Balance([e], a) == Net(e.lines, a)
  {
    assert [e][0].key == e.key;
    assert [] + [e] == [e];
    forall a ensures Balance([e], a) == Net(e.lines, a) { BalanceAppend([], e, a); }
  }

  lemma OwingOne(f: Offset)
    ensures OwingTotal([f]) == Owing(f)
  {
    OwingConcat([], [f]);
    assert [f][..0] == [];
  }

  /** One recovery of t against the only row, of which more is owed. */
  lemma PartialRecovery(j: seq<Entry>, f: Offset, t: int)
    requires SaneOffset(f) && 0 < t < Owing(f)
    ensures var r := ApplySpec(j, [f], f.seller, t, 0);
            var e := OffsetEntry(0, t, f.seller);
            var used := HasKey(j, e.key);
            r == Ok(Netting(if used then j else j + [e], [ApplyTo(f, t)], t, if used then t else 0))
  {
    hide HasKey, PostSpec;
    ApplyUnfold(j, [f], f.seller, t, 0);
    assert [f][0 := ApplyTo(f, t)] == [ApplyTo(f, t)];
  }
}
