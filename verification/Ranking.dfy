/** The published ranking formula (internal/modules/ranking): the exposure cap that
    keeps one seller from filling the page, the integer score, and the canonical
    order of listings. Recency is an input between 0 and 1,000,000. */
module Ranking {
  import opened Money

  const FULL: nat := 10_000
  const MAX_RECENCY: nat := 1_000_000

  datatype Parameters = Parameters(cap: int, decayBps: nat, bandWidth: nat)

  const PUBLISHED: Parameters := Parameters(3, 7000, 5000)

  // ---- exposure --------------------------------------------------------------------

  /** The weight of the k-th listing beyond the cap. */
  function Decayed(decayBps: nat, k: nat): nat {
    if k == 0 then FULL else Decayed(decayBps, k - 1) * decayBps / FULL
  }

  function Factor(p: Parameters, rank: int): nat {
    if rank <= p.cap then FULL else Decayed(p.decayBps, rank - p.cap)
  }

  lemma {:induction false} ZeroStays(decayBps: nat, k: nat, n: nat)
    requires k <= n && Decayed(decayBps, k) == 0
    ensures Decayed(decayBps, n) == 0
    decreases n
  {
    if k == n {
    } else {
      ZeroStays(decayBps, k, n - 1);
    }
  }

  /** exposureFactor multiplies its way from the cap to the rank, stopping at zero. */
  method ExposureFactor(p: Parameters, rank: int) returns (factor: nat)
    ensures factor == Factor(p, rank)
  {
    if rank <= p.cap { return FULL; }
    factor := FULL;
    var i := p.cap;
    while i < rank
      invariant p.cap <= i <= rank
      invariant factor == Decayed(p.decayBps, i - p.cap)
    {
      factor := factor * p.decayBps / FULL;
      i := i + 1;
      if factor == 0 {
        ZeroStays(p.decayBps, i - p.cap, rank - p.cap);
        return 0;
      }
    }
  }

  lemma DecayStep(decayBps: nat, k: nat)
    requires k > 0
    ensures FULL * Decayed(decayBps, k) <= Decayed(decayBps, k - 1) * decayBps
    ensures decayBps <= FULL ==> Decayed(decayBps, k) <= Decayed(decayBps, k - 1)
  {
    var before := Decayed(decayBps, k - 1);
    DivisionFacts(before * decayBps, FULL);
    if decayBps <= FULL {
      MulMono(decayBps, FULL, before);
      QuotientBound(before * decayBps, FULL, before);
    }
  }

  /** Weight never increases with rank, and never exceeds the full weight. */
  lemma {:induction false} FactorNeverIncreases(p: Parameters, a: int, b: int)
    requires a <= b && p.decayBps <= FULL
    ensures Factor(p, b) <= Factor(p, a) <= FULL
    decreases b - a, b - p.cap
  {
    if b <= p.cap {
    } else {
      DecayStep(p.decayBps, b - p.cap);
      if a < b {
        FactorNeverIncreases(p, a, b - 1);
      } else {
        FactorNeverIncreases(p, b - 1, b - 1);
      }
    }
  }

  /** The weights of a seller's first n listings. */
  function TotalFactor(p: Parameters, n: nat): nat {
    if n == 0 then 0 else TotalFactor(p, n - 1) + Factor(p, n)
  }

  lemma Regroup(s: int, x: int, before: int, d: int, full: int)
    requires s * (full - d) + before * d <= full * d && full * x <= before * d
    ensures (s + x) * (full - d) + x * d <= full * d
  {
    assert (s + x) * (full - d) + x * d == s * (full - d) + full * x;
  }

  /** However many listings a seller publishes, their weights total at most
      cap * 10000 + 10000 * d / (10000 - d): flooding is bounded. */
  lemma {:induction false} ExposureIsBounded(p: Parameters, n: nat)
    requires p.decayBps < FULL && p.cap >= 0
    ensures (TotalFactor(p, n) - FULL * p.cap) * (FULL - p.decayBps) <= FULL * p.decayBps
  {
    if n <= p.cap {
      AllFull(p, n);
      MulMono(TotalFactor(p, n) - FULL * p.cap, 0, FULL - p.decayBps);
    } else {
      Beyond(p, n);
    }
  }

  /** With the published parameters, any number of listings weigh together less than
      five and a half at full weight. */
  lemma PublishedBound(n: nat)
    ensures TotalFactor(PUBLISHED, n) <= 53_333
  {
    ExposureIsBounded(PUBLISHED, n);
  }

  lemma {:induction false} AllFull(p: Parameters, n: nat)
    requires n <= p.cap
    ensures TotalFactor(p, n) == FULL * n
  {
    if n == 0 {
    } else {
      AllFull(p, n - 1);
    }
  }

  lemma {:induction false} Beyond(p: Parameters, n: nat)
    requires p.decayBps < FULL && p.cap >= 0 && n >= p.cap
    ensures (TotalFactor(p, n) - FULL * p.cap) * (FULL - p.decayBps) + Factor(p, n) * p.decayBps <= FULL * p.decayBps
  {
    hide Factor, TotalFactor;
    var d := p.decayBps;
    if n == p.cap {
      AllFull(p, n);
      AtTheCap(p, n, d);
    } else {
      Beyond(p, n - 1);
      OneBeyond(p, n);
      Regroup(TotalFactor(p, n - 1) - FULL * p.cap, Factor(p, n), Factor(p, n - 1), d, FULL);
    }
  }

  lemma AtTheCap(p: Parameters, n: nat, d: nat)
    requires n == p.cap && d < FULL && TotalFactor(p, n) == FULL * n
    ensures (TotalFactor(p, n) - FULL * p.cap) * (FULL - d) + Factor(p, n) * d <= FULL * d
  {
    hide TotalFactor;
    assert TotalFactor(p, n) - FULL * p.cap == 0;
  }

  lemma OneBeyond(p: Parameters, n: nat)
    requires n > p.cap >= 0
    ensures TotalFactor(p, n) - FULL * p.cap == TotalFactor(p, n - 1) - FULL * p.cap + Factor(p, n)
    ensures FULL * Factor(p, n) <= Factor(p, n - 1) * p.decayBps
  {
    DecayStep(p.decayBps, n - p.cap);
    assert Factor(p, n - 1) == Decayed(p.decayBps, n - 1 - p.cap);
    hide Decayed;
  }

  // ---- score -----------------------------------------------------------------------

  datatype Listing = Listing(id: string, band: nat, score: nat, shuffleKey: nat)

  /** The integer part of Score: nothing for a listing that misses the gate. */
  function FinalScore(p: Parameters, recency: nat, gatePassed: bool, rank: int): nat {
    if gatePassed then recency * Factor(p, rank) / FULL else 0
  }

  function BandOf(p: Parameters, score: nat): nat
    requires p.bandWidth > 0
  {
    score / p.bandWidth
  }

  /** A listing never scores above its recency, and never gains a point or a band
      from being later in its seller's own list. */
  lemma ScoreNeverGains(p: Parameters, recency: nat, gatePassed: bool, a: int, b: int)
    requires a <= b && p.decayBps <= FULL && p.bandWidth > 0
    ensures FinalScore(p, recency, gatePassed, b) <= FinalScore(p, recency, gatePassed, a) <= recency
    ensures BandOf(p, FinalScore(p, recency, gatePassed, b)) <= BandOf(p, FinalScore(p, recency, gatePassed, a))
  {
    FactorNeverIncreases(p, a, b);
    var x, y := Factor(p, a), Factor(p, b);
    MulMono(y, x, recency);
    MulMono(x, FULL, recency);
    QuotientBound(recency * x, FULL, recency);
    DivisionGrows(recency * y, recency * x, FULL);
    DivisionGrows(FinalScore(p, recency, gatePassed, b), FinalScore(p, recency, gatePassed, a), p.bandWidth);
  }

  /** A score is the recency at the weight of the rank, rounded down: nothing for a
      listing that misses the gate, the recency itself within the cap. Its band is the
      one it falls into. */
  lemma ScoreIs(p: Parameters, recency: nat, gatePassed: bool, rank: int)
    requires p.bandWidth > 0
    ensures var score := FinalScore(p, recency, gatePassed, rank);
            && (!gatePassed ==> score == 0)
            && (gatePassed ==> FULL * score <= recency * Factor(p, rank) < FULL * (score + 1))
            && (gatePassed && rank <= p.cap ==> score == recency)
            && p.bandWidth * BandOf(p, score) <= score < p.bandWidth * (BandOf(p, score) + 1)
  {
    var score := FinalScore(p, recency, gatePassed, rank);
    DivisionFacts(recency * Factor(p, rank), FULL);
    DivisionFacts(score, p.bandWidth);
    MulStep(p.bandWidth, BandOf(p, score));
  }

  /** Within the cap a listing has its full weight; each one after it weighs the decay
      of the one before, rounded down. With the published parameters the first six
      weigh 10,000 three times, then 7,000, 4,900 and 3,430. */
  lemma WeightsAre(p: Parameters, rank: int)
    ensures rank <= p.cap ==> Factor(p, rank) == 10_000
    ensures rank >= p.cap ==> Factor(p, rank + 1) == Factor(p, rank) * p.decayBps / 10_000
    ensures Factor(PUBLISHED, 3) == 10_000 && Factor(PUBLISHED, 4) == 7_000
    ensures Factor(PUBLISHED, 5) == 4_900 && Factor(PUBLISHED, 6) == 3_430
  {
    if rank >= p.cap {
      assert Decayed(p.decayBps, rank + 1 - p.cap) == Decayed(p.decayBps, rank - p.cap) * p.decayBps / FULL;
    }
    assert Decayed(7000, 1) == 7_000 && Decayed(7000, 2) == 4_900 && Decayed(7000, 3) == 3_430;
  }

  lemma DivisionGrows(a: nat, b: nat, d: nat)
    requires a <= b && d > 0
    ensures a / d <= b / d
  {
    DivisionFacts(a, d);
    DivisionFacts(b, d);
    if a / d > b / d {
      MulMono(b / d + 1, a / d, d);
      MulStep(d, b / d);
    }
  }

  /** What one seller's first n listings score together, at any recencies. */
  function TotalScore(p: Parameters, recencies: seq<nat>): nat {
    if recencies == [] then 0
    else TotalScore(p, recencies[..|recencies| - 1]) + FinalScore(p, recencies[|recencies| - 1], true, |recencies|)
  }

  /** Each listing adds its score at its own rank. */
  lemma TotalScoreAdds(p: Parameters, recencies: seq<nat>, next: nat)
    ensures TotalScore(p, []) == 0
    ensures TotalScore(p, recencies + [next])
            == TotalScore(p, recencies) + FinalScore(p, next, true, |recencies| + 1)
  {
    assert (recencies + [next])[..|recencies|] == recencies;
  }

  lemma {:induction false} TotalScoreIsBounded(p: Parameters, recencies: seq<nat>)
    requires forall r <- recencies :: r <= MAX_RECENCY
    ensures FULL * TotalScore(p, recencies) <= MAX_RECENCY * TotalFactor(p, |recencies|)
  {
    if recencies == [] {
    } else {
      var init, last := recencies[..|recencies| - 1], recencies[|recencies| - 1];
      assert last in recencies;
      forall r | r in init ensures r <= MAX_RECENCY { assert r in recencies; }
      TotalScoreIsBounded(p, init);
      var f := Factor(p, |recencies|);
      DivisionFacts(last * f, FULL);
      MulMono(last, MAX_RECENCY, f);
    }
  }

  // ---- order -----------------------------------------------------------------------

  predicate TextLess(a: string, b: string) {
    if b == [] then false
    else if a == [] then true
    else if a[0] != b[0] then a[0] < b[0]
    else TextLess(a[1..], b[1..])
  }

  /** Dictionary order: at the first place where two texts differ, the smaller
      character, or the end of the shorter, comes first. */
  lemma {:induction false} TextLessIs(a: string, b: string)
    ensures TextLess(a, b)
            <==> exists k: nat :: k <= |a| && k < |b| && a[..k] == b[..k] && (k < |a| ==> a[k] < b[k])
  {
    if b == [] {
    } else if a == [] {
      assert a[..0] == b[..0];
    } else if a[0] != b[0] {
      assert a[..0] == b[..0];
      forall k: nat | 0 < k <= |a| && k < |b| ensures a[..k] != b[..k] {
        assert a[..k][0] == a[0] && b[..k][0] == b[0];
      }
    } else {
      TextLessIs(a[1..], b[1..]);
      if k: nat :| k <= |a| && k < |b| && a[..k] == b[..k] && (k < |a| ==> a[k] < b[k]) {
        assert a[1..][..k - 1] == a[..k][1..] && b[1..][..k - 1] == b[..k][1..];
      }
      if k: nat :| k <= |a[1..]| && k < |b[1..]| && a[1..][..k] == b[1..][..k]
                   && (k < |a[1..]| ==> a[1..][k] < b[1..][k]) {
        assert a[..k + 1] == [a[0]] + a[1..][..k] && b[..k + 1] == [b[0]] + b[1..][..k];
      }
    }
  }

  lemma {:induction false} TextTotal(a: string, b: string)
    ensures a == b || TextLess(a, b) || TextLess(b, a)
    ensures !(TextLess(a, b) && TextLess(b, a))
  {
    if a == [] || b == [] {
    } else {
      TextTotal(a[1..], b[1..]);
      if a[1..] == b[1..] && a[0] == b[0] { assert a == [a[0]] + a[1..] == b; }
    }
  }

  lemma {:induction false} TextTransitive(a: string, b: string, c: string)
    requires TextLess(a, b) && TextLess(b, c)
    ensures TextLess(a, c)
    decreases |a|
  {
    if a == [] || a[0] != b[0] || b[0] != c[0] {
    } else {
      TextTransitive(a[1..], b[1..], c[1..]);
    }
  }

  /** Higher band first, then the published shuffle, then the product id. */
  predicate Precedes(a: Listing, b: Listing) {
    if a.band != b.band then a.band > b.band
    else if a.shuffleKey != b.shuffleKey then a.shuffleKey < b.shuffleKey
    else TextLess(a.id, b.id)
  }

  lemma PrecedesIsTotal(a: Listing, b: Listing)
    ensures !(Precedes(a, b) && Precedes(b, a)) && !Precedes(a, a)
    ensures a.id != b.id ==> Precedes(a, b) || Precedes(b, a)
  {
    TextTotal(a.id, b.id);
    TextTotal(a.id, a.id);
  }

  lemma PrecedesIsTransitive(a: Listing, b: Listing, c: Listing)
    requires Precedes(a, b) && Precedes(b, c)
    ensures Precedes(a, c)
  {
    if a.band == c.band && a.shuffleKey == c.shuffleKey {
      TextTransitive(a.id, b.id, c.id);
    }
  }

  /** No listing comes before one that precedes it. */
  predicate Sorted(s: seq<Listing>) {
    forall i, j :: 0 <= i < j < |s| ==> !Precedes(s[j], s[i])
  }

  predicate DistinctIds(s: seq<Listing>) {
    forall i, j :: 0 <= i < j < |s| ==> s[i].id != s[j].id
  }

  /** The position for x: after every listing it does not precede. */
  function Insert(s: seq<Listing>, x: Listing): seq<Listing> {
    if s == [] then [x]
    else if Precedes(x, s[|s| - 1]) then Insert(s[..|s| - 1], x) + [s[|s| - 1]]
    else s + [x]
  }

  lemma {:induction false} InsertKeepsAll(s: seq<Listing>, x: Listing)
    ensures multiset(Insert(s, x)) == multiset(s) + multiset{x}
    ensures |Insert(s, x)| == |s| + 1
  {
    if s == [] || !Precedes(x, s[|s| - 1]) {
    } else {
      InsertKeepsAll(s[..|s| - 1], x);
      assert s == s[..|s| - 1] + [s[|s| - 1]];
    }
  }

  lemma {:induction false} InsertKeepsSorted(s: seq<Listing>, x: Listing)
    requires Sorted(s)
    ensures Sorted(Insert(s, x))
  {
    hide Precedes;
    if s != [] {
      var init, last := s[..|s| - 1], s[|s| - 1];
      if Precedes(x, last) {
        InsertKeepsSorted(init, x);
        InsertKeepsAll(init, x);
        forall i | 0 <= i < |Insert(init, x)| ensures !Precedes(last, Insert(init, x)[i]) {
          assert Insert(init, x)[i] in multiset(Insert(init, x));
          if Insert(init, x)[i] == x {
            PrecedesIsTotal(x, last);
          } else {
            assert Insert(init, x)[i] in init;
          }
        }
      } else {
        forall i | 0 <= i < |s| ensures !Precedes(x, s[i]) {
          if i < |init| && Precedes(x, s[i]) { PrecedesTheLast(s, x, i); }
        }
      }
    } else {
      PrecedesIsTotal(x, x);
    }
  }

  /** What precedes a listing of a sorted list precedes its last. */
  lemma PrecedesTheLast(s: seq<Listing>, x: Listing, i: nat)
    requires Sorted(s) && i < |s| - 1 && Precedes(x, s[i])
    ensures Precedes(x, s[|s| - 1])
  {
    var last := s[|s| - 1];
    if Precedes(s[i], last) {
      PrecedesIsTransitive(x, s[i], last);
    } else {
      TiedTo(s[i], last, x);
    }
  }

  /** Neither precedes the other only when all three keys agree. */
  lemma TiedTo(a: Listing, b: Listing, x: Listing)
    requires !Precedes(a, b) && !Precedes(b, a)
    ensures Precedes(x, a) <==> Precedes(x, b)
  {
    TextTotal(a.id, b.id);
  }

  /** A stable sort by Precedes. */
  function SortedBy(s: seq<Listing>): seq<Listing> {
    if s == [] then [] else Insert(SortedBy(s[..|s| - 1]), s[|s| - 1])
  }

  lemma {:induction false} SortedByIsSorted(s: seq<Listing>)
    ensures Sorted(SortedBy(s)) && multiset(SortedBy(s)) == multiset(s) && |SortedBy(s)| == |s|
  {
    if s == [] {
    } else {
      var init, last := s[..|s| - 1], s[|s| - 1];
      SortedByIsSorted(init);
      InsertKeepsSorted(SortedBy(init), last);
      InsertKeepsAll(SortedBy(init), last);
      assert s == init + [last];
    }
  }

  /** Two sorted arrangements of the same listings with distinct ids are one. */
  lemma {:induction false} SortedIsUnique(a: seq<Listing>, b: seq<Listing>)
    requires Sorted(a) && Sorted(b) && DistinctIds(a) && multiset(a) == multiset(b)
    ensures a == b
  {
    hide Sorted, DistinctIds;
    SameSize(a, b);
    if a == [] {
    } else {
      SameLast(a, b);
      LastApart(a);
      LastApart(b);
      SortedIsUnique(a[..|a| - 1], b[..|b| - 1]);
    }
  }

  lemma RemovedAt(s: seq<Listing>, j: nat)
    requires j < |s|
    ensures multiset(s[..j] + s[j + 1..]) == multiset(s) - multiset{s[j]}
  {
    assert s == s[..j] + [s[j]] + s[j + 1..];
  }

  lemma LastApart(s: seq<Listing>)
    requires s != []
    ensures multiset(s[..|s| - 1]) == multiset(s) - multiset{s[|s| - 1]}
    ensures s == s[..|s| - 1] + [s[|s| - 1]]
    ensures Sorted(s) ==> Sorted(s[..|s| - 1])
    ensures DistinctIds(s) ==> DistinctIds(s[..|s| - 1])
  {
    assert s == s[..|s| - 1] + [s[|s| - 1]];
  }

  lemma SameSize(a: seq<Listing>, b: seq<Listing>)
    requires multiset(a) == multiset(b)
    ensures |a| == |b|
  {
    assert |a| == |multiset(a)| == |multiset(b)| == |b|;
  }

  /** The last of a sorted arrangement is the one listing every other precedes. */
  lemma SameLast(a: seq<Listing>, b: seq<Listing>)
    requires Sorted(a) && Sorted(b) && DistinctIds(a) && multiset(a) == multiset(b) && |a| == |b| && a != []
    ensures a[|a| - 1] == b[|b| - 1]
  {
    hide Precedes;
    var x, y := a[|a| - 1], b[|b| - 1];
    assert x in multiset(b) && y in multiset(a);
    assert x in b && y in a;
    var i :| 0 <= i < |b| && b[i] == x;
    var j :| 0 <= j < |a| && a[j] == y;
    if x != y {
      assert i < |b| - 1 && j < |a| - 1;
      assert y.id != x.id;
      PrecedesIsTotal(x, y);
    }
  }

  /** A scored listing, stamped with the shuffle key of the seed in force. */
  function Stamp(r: Listing, seed: nat, mix: (nat, string) -> nat): Listing {
    r.(shuffleKey := mix(seed, r.id))
  }

  function StampAll(rs: seq<Listing>, seed: nat, mix: (nat, string) -> nat): (s: seq<Listing>)
    ensures |s| == |rs| && forall i :: 0 <= i < |rs| ==> s[i] == Stamp(rs[i], seed, mix)
  {
    if rs == [] then [] else StampAll(rs[..|rs| - 1], seed, mix) + [Stamp(rs[|rs| - 1], seed, mix)]
  }

  /** How the result reads: bands from the highest down, within a band the shuffle keys
      from the least up, and under equal keys the ids in dictionary order. Every key is
      the mix of the seed and the own id. */
  lemma OrderReads(rs: seq<Listing>, seed: nat, mix: (nat, string) -> nat, out: seq<Listing>, i: nat, j: nat)
    requires Sorted(out) && multiset(out) == multiset(StampAll(rs, seed, mix)) && i < j < |out|
    ensures var a, b := out[i], out[j];
            && a.band >= b.band && (a.band == b.band ==> a.shuffleKey <= b.shuffleKey)
            && (a.band == b.band && a.shuffleKey == b.shuffleKey ==>
                  a.id == b.id
                  || exists k: nat :: k <= |a.id| && k < |b.id| && a.id[..k] == b.id[..k]
                                      && (k < |a.id| ==> a.id[k] < b.id[k]))
            && a.shuffleKey == mix(seed, a.id) && b.shuffleKey == mix(seed, b.id)
  {
    hide TextLess;
    TextTotal(out[i].id, out[j].id);
    TextLessIs(out[i].id, out[j].id);
    assert !Precedes(out[j], out[i]);
    assert out[i] in multiset(out) && out[j] in multiset(out);
  }

  /** Order: copy, stamp each copy, sort. The mixing function is a parameter. */
  method Order(rs: seq<Listing>, seed: nat, mix: (nat, string) -> nat) returns (out: seq<Listing>)
    ensures out == SortedBy(StampAll(rs, seed, mix))
    ensures Sorted(out) && multiset(out) == multiset(StampAll(rs, seed, mix))
  {
    out := rs;
    var i := 0;
    while i < |out|
      invariant 0 <= i <= |out| == |rs|
      invariant forall x :: 0 <= x < i ==> out[x] == Stamp(rs[x], seed, mix)
      invariant forall x :: i <= x < |out| ==> out[x] == rs[x]
    {
      out := out[i := out[i].(shuffleKey := mix(seed, out[i].id))];
      i := i + 1;
    }
    var stamped := out;
    assert stamped == StampAll(rs, seed, mix);
    out := [];
    i := 0;
    while i < |stamped|
      invariant 0 <= i <= |stamped|
      invariant out == SortedBy(stamped[..i])
    {
      assert stamped[..i + 1][..i] == stamped[..i];
      out := InsertOne(out, stamped[i]);
      i := i + 1;
    }
    assert stamped[..i] == stamped;
    SortedByIsSorted(stamped);
  }

  method InsertOne(s: seq<Listing>, x: Listing) returns (r: seq<Listing>)
    ensures r == Insert(s, x)
  {
    var k := |s|;
    assert s[..|s|] == s;
    while k > 0 && Precedes(x, s[k - 1])
      invariant 0 <= k <= |s|
      invariant Insert(s, x) == Insert(s[..k], x) + s[k..]
    {
      assert s[..k][..k - 1] == s[..k - 1];
      assert [s[k - 1]] + s[k..] == s[k - 1..];
      k := k - 1;
    }
    assert Insert(s[..k], x) == s[..k] + [x];
    r := s[..k] + [x] + s[k..];
  }

  lemma {:induction false} StampedMultiset(a: seq<Listing>, b: seq<Listing>, seed: nat, mix: (nat, string) -> nat)
    requires multiset(a) == multiset(b)
    ensures multiset(StampAll(a, seed, mix)) == multiset(StampAll(b, seed, mix))
    decreases |a|
  {
    SameSize(a, b);
    if a == [] {
    } else {
      var n := |a| - 1;
      assert a[n] in multiset(b);
      var j :| 0 <= j < |b| && b[j] == a[n];
      var rest := b[..j] + b[j + 1..];
      assert a[..n] + a[n + 1..] == a[..n];
      RemovedAt(a, n);
      RemovedAt(b, j);
      StampedMultiset(a[..n], rest, seed, mix);
      StampedWithout(a, n, seed, mix);
      StampedWithout(b, j, seed, mix);
    }
  }

  lemma StampedWithout(s: seq<Listing>, j: nat, seed: nat, mix: (nat, string) -> nat)
    requires j < |s|
    ensures multiset(StampAll(s, seed, mix))
            == multiset(StampAll(s[..j] + s[j + 1..], seed, mix)) + multiset{Stamp(s[j], seed, mix)}
  {
    hide StampAll, Stamp;
    var fewer := s[..j] + s[j + 1..];
    var all, rest := StampAll(s, seed, mix), StampAll(fewer, seed, mix);
    forall i | 0 <= i < |rest| ensures rest[i] == (all[..j] + all[j + 1..])[i] {
      assert rest[i] == Stamp(fewer[i], seed, mix);
      assert fewer[i] == if i < j then s[i] else s[i + 1];
    }
    assert rest == all[..j] + all[j + 1..];
    RemovedAt(all, j);
    assert all[j] in all;
  }

  /** With distinct product ids the order does not depend on the order of the input,
      so anyone with the seed and the same listings reproduces it. */
  lemma OrderIsCanonical(a: seq<Listing>, b: seq<Listing>, seed: nat, mix: (nat, string) -> nat)
    requires multiset(a) == multiset(b) && DistinctIds(a)
    ensures SortedBy(StampAll(a, seed, mix)) == SortedBy(StampAll(b, seed, mix))
  {
    var sa, sb := StampAll(a, seed, mix), StampAll(b, seed, mix);
    StampedMultiset(a, b, seed, mix);
    SortedByIsSorted(sa);
    SortedByIsSorted(sb);
    assert DistinctIds(sa);
    PermutationKeepsDistinct(sa, SortedBy(sa));
    SortedIsUnique(SortedBy(sa), SortedBy(sb));
  }

  /** Distinct ids survive rearrangement. */
  lemma PermutationKeepsDistinct(a: seq<Listing>, b: seq<Listing>)
    requires DistinctIds(a) && multiset(a) == multiset(b)
    ensures DistinctIds(b)
  {
    forall i, j | 0 <= i < j < |b| ensures b[i].id != b[j].id {
      if b[i].id == b[j].id {
        assert b[i] in multiset(a) && b[j] in multiset(a);
        var x :| 0 <= x < |a| && a[x] == b[i];
        var y :| 0 <= y < |a| && a[y] == b[j];
        assert x == y;
        Twice(b, i, j);
        Once(a, x);
        assert false;
      }
    }
  }

  lemma Twice(s: seq<Listing>, i: nat, j: nat)
    requires i < j < |s| && s[i] == s[j]
    ensures multiset(s)[s[i]] >= 2
  {
    assert s == s[..i] + [s[i]] + s[i + 1..j] + [s[j]] + s[j + 1..];
  }

  lemma Once(s: seq<Listing>, i: nat)
    requires DistinctIds(s) && i < |s|
    ensures multiset(s)[s[i]] == 1
  {
    assert s == s[..i] + [s[i]] + s[i + 1..];
    assert s[i] !in s[..i] && s[i] !in s[i + 1..];
  }
}
