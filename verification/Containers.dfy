/** Where a manifest sits inside an image file, and the bytes of the file without
    it (internal/modules/provenance/c2pa.go). */
module Containers {
  import opened Money
  import opened Cbor

  datatype Range = Range(start: nat, length: nat)

  // ---- ranges ---------------------------------------------------------------------

  /** Strictly ascending, disjoint, non-empty ranges inside lo..hi. */
  predicate Ordered(ranges: seq<Range>, lo: nat, hi: nat) {
    if ranges == [] then lo <= hi
    else
      var r := ranges[0];
      lo <= r.start && r.length > 0 && r.start + r.length <= hi && Ordered(ranges[1..], r.start + r.length, hi)
  }

  predicate Covered(ranges: seq<Range>, i: nat) {
    exists r :: 0 <= r < |ranges| && ranges[r].start <= i < ranges[r].start + ranges[r].length
  }

  /** The bytes from position i on that no range covers, in order. */
  function Outside(asset: seq<Byte>, ranges: seq<Range>, i: nat): seq<Byte>
    decreases |asset| - i
  {
    if i >= |asset| then []
    else (if Covered(ranges, i) then [] else [asset[i]]) + Outside(asset, ranges, i + 1)
  }

  function TotalLength(ranges: seq<Range>): nat {
    if ranges == [] then 0 else ranges[0].length + TotalLength(ranges[1..])
  }

  // ---- excludeRanges ----------------------------------------------------------------

  /** What excludeRanges keeps from `prev` on. A range that starts before the point
      already reached, or past the end, is passed over. */
  function Spliced(asset: seq<Byte>, ranges: seq<Range>, prev: nat): seq<Byte>
    requires prev <= |asset|
    decreases |ranges|
  {
    if ranges == [] then asset[prev..]
    else
      var r := ranges[0];
      if r.start < prev || r.start > |asset| then Spliced(asset, ranges[1..], prev)
      else asset[prev..r.start]
           + Spliced(asset, ranges[1..], if r.start + r.length <= |asset| then r.start + r.length else |asset|)
  }

  lemma NothingSpliced(asset: seq<Byte>, prev: nat)
    requires prev <= |asset|
    ensures Spliced(asset, [], prev) == asset[prev..]
  {
  }

  lemma SplicedUnfold(asset: seq<Byte>, ranges: seq<Range>, k: nat, prev: nat)
    requires k < |ranges| && prev <= |asset|
    ensures var r := ranges[k];
            Spliced(asset, ranges[k..], prev)
            == if r.start < prev || r.start > |asset| then Spliced(asset, ranges[k + 1..], prev)
               else
                 var next := if r.start + r.length <= |asset| then r.start + r.length else |asset|;
                 asset[prev..r.start] + Spliced(asset, ranges[k + 1..], next)
  {
    assert ranges[k..][1..] == ranges[k + 1..];
  }

  lemma KeepMore(asset: seq<Byte>, ranges: seq<Range>, k: nat, prev: nat, out: seq<Byte>, all: seq<Byte>)
    requires k < |ranges| && prev <= |asset| && out + Spliced(asset, ranges[k..], prev) == all
    ensures var r := ranges[k];
            if r.start < prev || r.start > |asset| then out + Spliced(asset, ranges[k + 1..], prev) == all
            else
              var next := if r.start + r.length <= |asset| then r.start + r.length else |asset|;
              out + asset[prev..r.start] + Spliced(asset, ranges[k + 1..], next) == all
  {
    SplicedUnfold(asset, ranges, k, prev);
    hide Spliced;
    var r := ranges[k];
    if !(r.start < prev || r.start > |asset|) {
      var next := if r.start + r.length <= |asset| then r.start + r.length else |asset|;
      Regroup(out, asset[prev..r.start], Spliced(asset, ranges[k + 1..], next));
    }
  }

  lemma Regroup(a: seq<Byte>, b: seq<Byte>, c: seq<Byte>)
    ensures a + (b + c) == a + b + c
  {
  }

  method ExcludeRanges(asset: seq<Byte>, ranges: seq<Range>) returns (out: seq<Byte>)
    ensures out == Spliced(asset, ranges, 0)
    ensures Ordered(ranges, 0, |asset|) ==> out == Outside(asset, ranges, 0) && |out| == |asset| - TotalLength(ranges)
  {
    if |ranges| == 0 {
      assert ranges == [] && asset[0..] == asset;
      if Ordered(ranges, 0, |asset|) { SplicedIsOutside(asset, ranges, 0); }
      return asset;
    }
    hide Spliced, Outside, Ordered, TotalLength;
    out := [];
    var prev := 0;
    var k := 0;
    ghost var all := Spliced(asset, ranges, 0);
    assert ranges[0..] == ranges;
    while k < |ranges|
      invariant 0 <= k <= |ranges| && 0 <= prev <= |asset|
      invariant out + Spliced(asset, ranges[k..], prev) == all
    {
      var r := ranges[k];
      KeepMore(asset, ranges, k, prev, out, all);
      if !(r.start < prev || r.start > |asset|) {
        var next := if r.start + r.length <= |asset| then r.start + r.length else |asset|;
        out := out + asset[prev..r.start];
        prev := next;
      }
      k := k + 1;
    }
    assert ranges[k..] == [];
    NothingSpliced(asset, prev);
    out := out + asset[prev..];
    if Ordered(ranges, 0, |asset|) { SplicedIsOutside(asset, ranges, 0); }
  }

  lemma {:induction false} OutsideOfNothing(asset: seq<Byte>, ranges: seq<Range>, lo: nat, hi: nat)
    requires lo <= hi <= |asset| && forall i :: lo <= i < hi ==> !Covered(ranges, i)
    ensures Outside(asset, ranges, lo) == asset[lo..hi] + Outside(asset, ranges, hi)
    decreases hi - lo
  {
    hide Covered;
    if lo < hi {
      OutsideOfNothing(asset, ranges, lo + 1, hi);
      var rest := Outside(asset, ranges, hi);
      assert asset[lo..hi] == [asset[lo]] + asset[lo + 1..hi];
      assert [asset[lo]] + (asset[lo + 1..hi] + rest) == [asset[lo]] + asset[lo + 1..hi] + rest;
      hide Outside;
    } else {
      assert asset[lo..hi] + Outside(asset, ranges, hi) == Outside(asset, ranges, hi);
    }
  }

  lemma {:induction false} OutsideOfCovered(asset: seq<Byte>, ranges: seq<Range>, lo: nat, hi: nat)
    requires lo <= hi <= |asset| && forall i :: lo <= i < hi ==> Covered(ranges, i)
    ensures Outside(asset, ranges, lo) == Outside(asset, ranges, hi)
    decreases hi - lo
  {
    hide Covered;
    if lo == hi {
    } else {
      OutsideOfCovered(asset, ranges, lo + 1, hi);
    }
  }

  lemma {:induction false} StartsLater(ranges: seq<Range>, lo: nat, hi: nat, i: nat)
    requires Ordered(ranges, lo, hi) && i < lo
    ensures !Covered(ranges, i)
  {
    if ranges == [] {
    } else {
      StartsLater(ranges[1..], ranges[0].start + ranges[0].length, hi, i);
      forall r | 0 <= r < |ranges| ensures !(ranges[r].start <= i < ranges[r].start + ranges[r].length) {
        if r > 0 { assert ranges[r] == ranges[1..][r - 1]; }
      }
    }
  }

  lemma CoveredLater(ranges: seq<Range>, i: nat)
    requires ranges != [] && i >= ranges[0].start + ranges[0].length
    ensures Covered(ranges, i) <==> Covered(ranges[1..], i)
  {
    if Covered(ranges, i) {
      var r :| 0 <= r < |ranges| && ranges[r].start <= i < ranges[r].start + ranges[r].length;
      assert ranges[1..][r - 1] == ranges[r];
    }
    if Covered(ranges[1..], i) {
      var r :| 0 <= r < |ranges[1..]| && ranges[1..][r].start <= i < ranges[1..][r].start + ranges[1..][r].length;
      assert ranges[r + 1] == ranges[1..][r];
    }
  }

  lemma {:induction false} OutsideLater(asset: seq<Byte>, ranges: seq<Range>, i: nat)
    requires ranges != [] && i >= ranges[0].start + ranges[0].length
    ensures Outside(asset, ranges, i) == Outside(asset, ranges[1..], i)
    decreases |asset| - i
  {
    hide Covered;
    if i >= |asset| {
    } else {
      CoveredLater(ranges, i);
      OutsideLater(asset, ranges, i + 1);
    }
  }

  lemma {:induction false} NothingCovered(asset: seq<Byte>, i: nat)
    requires i <= |asset|
    ensures Outside(asset, [], i) == asset[i..]
    decreases |asset| - i
  {
    if i == |asset| {
    } else {
      NothingCovered(asset, i + 1);
      assert asset[i..] == [asset[i]] + asset[i + 1..];
    }
  }

  lemma FirstCovers(ranges: seq<Range>)
    requires ranges != []
    ensures forall i :: ranges[0].start <= i < ranges[0].start + ranges[0].length ==> Covered(ranges, i)
  {
  }

  lemma SplicedStep(asset: seq<Byte>, ranges: seq<Range>, prev: nat)
    requires ranges != [] && prev <= |asset| && Ordered(ranges, prev, |asset|)
    ensures var r := ranges[0];
            && Ordered(ranges[1..], r.start + r.length, |asset|) && prev <= r.start && r.start + r.length <= |asset|
            && Spliced(asset, ranges, prev) == asset[prev..r.start] + Spliced(asset, ranges[1..], r.start + r.length)
  {
  }

  lemma OutsideStep(asset: seq<Byte>, ranges: seq<Range>, prev: nat)
    requires ranges != [] && prev <= |asset| && Ordered(ranges, prev, |asset|)
    ensures var r := ranges[0];
            && prev <= r.start && r.start + r.length <= |asset|
            && Outside(asset, ranges, prev) == asset[prev..r.start] + Outside(asset, ranges[1..], r.start + r.length)
  {
    var r := ranges[0];
    var next := r.start + r.length;
    assert prev <= r.start && next <= |asset| && Ordered(ranges, r.start, |asset|);
    hide Covered, Outside, Ordered;
    forall i | prev <= i < r.start ensures !Covered(ranges, i) {
      StartsLater(ranges, r.start, |asset|, i);
    }
    FirstCovers(ranges);
    OutsideOfNothing(asset, ranges, prev, r.start);
    OutsideOfCovered(asset, ranges, r.start, next);
    OutsideLater(asset, ranges, next);
  }

  lemma LengthOfBoth(a: seq<Byte>, b: seq<Byte>)
    ensures |a + b| == |a| + |b|
  {
  }

  /** On ordered ranges, what is kept is exactly the bytes outside all of them, in
      order, and the length falls by the total of the ranges. */
  lemma {:induction false} SplicedIsOutside(asset: seq<Byte>, ranges: seq<Range>, prev: nat)
    requires prev <= |asset| && Ordered(ranges, prev, |asset|)
    ensures Spliced(asset, ranges, prev) == Outside(asset, ranges, prev)
    ensures |Spliced(asset, ranges, prev)| == |asset| - prev - TotalLength(ranges)
    decreases |ranges|
  {
    if ranges == [] {
      NothingCovered(asset, prev);
      NothingSpliced(asset, prev);
    } else {
      hide Outside, Spliced, Ordered;
      var r := ranges[0];
      var next := r.start + r.length;
      SplicedStep(asset, ranges, prev);
      OutsideStep(asset, ranges, prev);
      SplicedIsOutside(asset, ranges[1..], next);
      LengthOfBoth(asset[prev..r.start], Spliced(asset, ranges[1..], next));
    }
  }

  // ---- JPEG -------------------------------------------------------------------------

  function Word(asset: seq<Byte>, i: nat): nat
    requires i + 2 <= |asset|
  {
    var high: int := asset[i];
    256 * high + asset[i + 1]
  }

  predicate Standalone(marker: Byte) {
    0xD0 <= marker <= 0xD9
  }

  /** An APP11 segment with the common identifier "JP" and something after its
      eight-byte header. */
  predicate CarriesManifest(marker: Byte, body: seq<Byte>) {
    marker == 0xEB && |body| > 8 && body[0] == 0x4A && body[1] == 0x50
  }

  datatype Found = Found(store: seq<Byte>, ranges: seq<Range>)

  /** The segment walk from position i. */
  function Walk(asset: seq<Byte>, i: nat): Found
    decreases |asset| - i
  {
    if i + 4 > |asset| then Found([], [])
    else if asset[i] != 0xFF then Walk(asset, i + 1)
    else
      var marker := asset[i + 1];
      if Standalone(marker) then Walk(asset, i + 2)
      else if marker == 0xDA then Found([], [])
      else
        var length := Word(asset, i + 2);
        if length < 2 || i + 2 + length > |asset| then Found([], [])
        else
          var body := asset[i + 4..i + 2 + length];
          var rest := Walk(asset, i + 2 + length);
          if CarriesManifest(marker, body)
          then Found(body[8..] + rest.store, [Range(i, 2 + length)] + rest.ranges)
          else rest
  }

  /** The payloads of the segments at these ranges, in order: what follows the marker,
      the length and the eight-byte header. */
  function Payloads(asset: seq<Byte>, ranges: seq<Range>): seq<Byte> {
    if ranges == [] then []
    else
      var r := ranges[0];
      (if 12 <= r.length && r.start + r.length <= |asset| then asset[r.start + 12..r.start + r.length] else [])
      + Payloads(asset, ranges[1..])
  }

  /** A whole APP11 segment: marker, its own length, the identifier and a payload. */
  predicate IsManifestSegment(asset: seq<Byte>, r: Range) {
    && r.length > 12 && r.start + r.length <= |asset|
    && asset[r.start] == 0xFF && asset[r.start + 1] == 0xEB
    && Word(asset, r.start + 2) == r.length - 2
    && asset[r.start + 4] == 0x4A && asset[r.start + 5] == 0x50
  }

  /** The manifest is put together from exactly the payloads of the segments whose
      ranges are excluded, each of them a whole APP11 segment. */
  lemma {:induction false} WalkStoresPayloads(asset: seq<Byte>, i: nat)
    ensures var w := Walk(asset, i);
            && w.store == Payloads(asset, w.ranges)
            && forall k :: 0 <= k < |w.ranges| ==> IsManifestSegment(asset, w.ranges[k])
    decreases |asset| - i
  {
    hide Word, IsManifestSegment, Payloads;
    NoPayloads(asset);
    if i + 4 > |asset| {
    } else {
      if asset[i] != 0xFF {
        WalkStoresPayloads(asset, i + 1);
      } else if Standalone(asset[i + 1]) {
        WalkStoresPayloads(asset, i + 2);
      } else if asset[i + 1] != 0xDA {
        var next := i + 2 + Word(asset, i + 2);
        if Word(asset, i + 2) >= 2 && next <= |asset| {
          WalkStoresPayloads(asset, next);
          if CarriesManifest(asset[i + 1], asset[i + 4..next]) {
            FirstSegment(asset, i, next, Walk(asset, next).ranges);
          }
        }
      }
    }
  }

  lemma NoPayloads(asset: seq<Byte>)
    ensures Payloads(asset, []) == []
  {
  }

  lemma FirstSegment(asset: seq<Byte>, i: nat, next: nat, rest: seq<Range>)
    requires i + 4 <= next <= |asset| && asset[i] == 0xFF && next == i + 2 + Word(asset, i + 2)
    requires CarriesManifest(asset[i + 1], asset[i + 4..next])
    ensures IsManifestSegment(asset, Range(i, next - i))
    ensures Payloads(asset, [Range(i, next - i)] + rest) == asset[i + 4..next][8..] + Payloads(asset, rest)
  {
    var ranges := [Range(i, next - i)] + rest;
    assert ranges[1..] == rest;
    assert asset[i + 4..next][0] == asset[i + 4] && asset[i + 4..next][1] == asset[i + 5];
    assert asset[i + 4..next][8..] == asset[i + 12..next];
  }

  // ---- the numbers the segments carry -------------------------------------------------

  /** The box instance and the packet sequence in the header of a segment. */
  function Instance(asset: seq<Byte>, r: Range): nat {
    if r.start + 12 <= |asset| then Word(asset, r.start + 6) else 0
  }

  function Sequence(asset: seq<Byte>, r: Range): nat {
    if r.start + 12 <= |asset| then 65536 * Word(asset, r.start + 8) + Word(asset, r.start + 10) else 0
  }

  function OfInstance(asset: seq<Byte>, ranges: seq<Range>, instance: nat): seq<Range> {
    if ranges == [] then [] else
    var r := ranges[|ranges| - 1];
    OfInstance(asset, ranges[..|ranges| - 1], instance) + if Instance(asset, r) == instance then [r] else []
  }

  function InsertBySequence(asset: seq<Byte>, sorted: seq<Range>, r: Range): seq<Range> {
    if sorted == [] || Sequence(asset, sorted[|sorted| - 1]) <= Sequence(asset, r) then sorted + [r]
    else InsertBySequence(asset, sorted[..|sorted| - 1], r) + [sorted[|sorted| - 1]]
  }

  function BySequence(asset: seq<Byte>, ranges: seq<Range>): seq<Range> {
    if ranges == [] then [] else
    InsertBySequence(asset, BySequence(asset, ranges[..|ranges| - 1]), ranges[|ranges| - 1])
  }

  /** What reassembly by those numbers takes: the segments of the first one's box
      instance, by packet sequence. */
  function Reassembled(asset: seq<Byte>, ranges: seq<Range>): seq<Range> {
    if ranges == [] then [] else BySequence(asset, OfInstance(asset, ranges, Instance(asset, ranges[0])))
  }

  predicate Ascending(asset: seq<Byte>, ranges: seq<Range>) {
    forall j, k :: 0 <= j < k < |ranges| ==> Sequence(asset, ranges[j]) <= Sequence(asset, ranges[k])
  }

  predicate OneInstance(asset: seq<Byte>, ranges: seq<Range>) {
    forall k :: 0 <= k < |ranges| ==> Instance(asset, ranges[k]) == Instance(asset, ranges[0])
  }

  lemma {:induction false} InstanceFilter(asset: seq<Byte>, ranges: seq<Range>, instance: nat)
    ensures |OfInstance(asset, ranges, instance)| <= |ranges|
    ensures |OfInstance(asset, ranges, instance)| == |ranges|
            <==> forall k :: 0 <= k < |ranges| ==> Instance(asset, ranges[k]) == instance
    ensures |OfInstance(asset, ranges, instance)| == |ranges| ==> OfInstance(asset, ranges, instance) == ranges
  {
    hide Instance;
    if ranges == [] {
    } else {
      var init := ranges[..|ranges| - 1];
      InstanceFilter(asset, init, instance);
      assert ranges == init + [ranges[|ranges| - 1]];
      assert forall k :: 0 <= k < |init| ==> init[k] == ranges[k];
    }
  }

  lemma {:induction false} InsertKeepsAscending(asset: seq<Byte>, sorted: seq<Range>, r: Range)
    requires Ascending(asset, sorted)
    ensures var s := InsertBySequence(asset, sorted, r);
            && |s| == |sorted| + 1 && Ascending(asset, s)
            && forall k :: 0 <= k < |s| ==> s[k] in sorted || s[k] == r
  {
    hide Sequence;
    if sorted == [] || Sequence(asset, sorted[|sorted| - 1]) <= Sequence(asset, r) {
    } else {
      var init, last := sorted[..|sorted| - 1], sorted[|sorted| - 1];
      InsertKeepsAscending(asset, init, r);
      var s := InsertBySequence(asset, init, r);
      forall k | 0 <= k < |s| ensures Sequence(asset, s[k]) <= Sequence(asset, last) && (s[k] in sorted || s[k] == r) {
        if s[k] != r {
          var x :| 0 <= x < |init| && init[x] == s[k];
          assert sorted[x] == s[k];
        }
      }
    }
  }

  lemma {:induction false} SortIsAscending(asset: seq<Byte>, ranges: seq<Range>)
    ensures |BySequence(asset, ranges)| == |ranges| && Ascending(asset, BySequence(asset, ranges))
    ensures Ascending(asset, ranges) ==> BySequence(asset, ranges) == ranges
  {
    hide Sequence, InsertBySequence;
    if ranges == [] {
    } else {
      var init, last := ranges[..|ranges| - 1], ranges[|ranges| - 1];
      SortIsAscending(asset, init);
      InsertKeepsAscending(asset, BySequence(asset, init), last);
      assert ranges == init + [last];
      if Ascending(asset, ranges) {
        LastStays(asset, init, last);
      }
    }
  }

  lemma LastStays(asset: seq<Byte>, init: seq<Range>, last: Range)
    requires Ascending(asset, init + [last])
    ensures Ascending(asset, init) && InsertBySequence(asset, init, last) == init + [last]
  {
    hide Sequence;
    var ranges := init + [last];
    forall j, k | 0 <= j < k < |init| ensures Sequence(asset, init[j]) <= Sequence(asset, init[k]) {
      assert ranges[j] == init[j] && ranges[k] == init[k];
    }
    if init != [] {
      assert ranges[|init| - 1] == init[|init| - 1] && ranges[|init|] == last;
    }
  }

  /** The code joins the segments as they come in the file. That is reassembly by
      their numbers if and only if they all carry one box instance and their packet
      sequence numbers ascend. */
  lemma FileOrderIsReassemblyIff(asset: seq<Byte>, i: nat)
    ensures var w := Walk(asset, i);
            && (Reassembled(asset, w.ranges) == w.ranges
                <==> OneInstance(asset, w.ranges) && Ascending(asset, w.ranges))
            && (OneInstance(asset, w.ranges) && Ascending(asset, w.ranges)
                ==> w.store == Payloads(asset, Reassembled(asset, w.ranges)))
  {
    WalkStoresPayloads(asset, i);
    var ranges := Walk(asset, i).ranges;
    hide Walk, Sequence, Instance, Payloads;
    if ranges != [] {
      var chosen := OfInstance(asset, ranges, Instance(asset, ranges[0]));
      InstanceFilter(asset, ranges, Instance(asset, ranges[0]));
      SortIsAscending(asset, chosen);
    }
  }

  /** A segment of one payload byte, and a file with two of them. */
  function OneByteSegment(instance: Byte, sequence: Byte, payload: Byte): seq<Byte> {
    [0xFF, 0xEB, 0, 11, 0x4A, 0x50, 0, instance, 0, 0, 0, sequence, payload]
  }

  function TwoSegments(first: seq<Byte>, second: seq<Byte>): seq<Byte> {
    [0xFF, 0xD8] + first + second
  }

  lemma SegmentIsFound(asset: seq<Byte>, i: nat, instance: Byte, sequence: Byte, payload: Byte)
    requires i + 13 <= |asset| && asset[i..i + 13] == OneByteSegment(instance, sequence, payload)
    ensures Walk(asset, i) == Found([payload] + Walk(asset, i + 13).store, [Range(i, 13)] + Walk(asset, i + 13).ranges)
    ensures Instance(asset, Range(i, 13)) == instance as int && Sequence(asset, Range(i, 13)) == sequence as int
    ensures asset[i + 12..i + 13] == [payload]
  {
    var segment := asset[i..i + 13];
    assert forall k :: 0 <= k < 13 ==> asset[i + k] == segment[k];
    assert asset[i] == segment[0] && asset[i + 1] == segment[1] && asset[i + 2] == segment[2]
           && asset[i + 3] == segment[3];
    assert asset[i + 4] == segment[4] && asset[i + 5] == segment[5] && asset[i + 6] == segment[6]
           && asset[i + 7] == segment[7];
    assert asset[i + 8] == segment[8] && asset[i + 9] == segment[9] && asset[i + 10] == segment[10]
           && asset[i + 11] == segment[11];
    assert asset[i + 12] == segment[12];
    assert Word(asset, i + 2) == 11;
    var body := asset[i + 4..i + 13];
    assert body[0] == asset[i + 4] && body[1] == asset[i + 5];
    assert body[8..] == [payload];
  }

  lemma TwoSegmentsLie(first: seq<Byte>, second: seq<Byte>)
    requires |first| == 13 && |second| == 13
    ensures var asset := TwoSegments(first, second);
            && |asset| == 28 && asset[2..15] == first && asset[15..28] == second && Walk(asset, 28) == Found([], [])
  {
  }

  lemma TwoSegmentsFound(asset: seq<Byte>, p: Byte, q: Byte)
    requires |asset| == 28 && asset[2..15] == OneByteSegment(1, 2, p) && asset[15..28] == OneByteSegment(1, 1, q)
    requires Walk(asset, 28) == Found([], [])
    ensures Walk(asset, 2) == Found([p, q], [Range(2, 13), Range(15, 13)])
    ensures Instance(asset, Range(2, 13)) == 1 == Instance(asset, Range(15, 13))
    ensures Sequence(asset, Range(2, 13)) == 2 && Sequence(asset, Range(15, 13)) == 1
    ensures Payloads(asset, [Range(15, 13), Range(2, 13)]) == [q, p]
  {
    hide Instance, Sequence, OneByteSegment, Walk;
    SegmentIsFound(asset, 2, 1, 2, p);
    SegmentIsFound(asset, 15, 1, 1, q);
    var a, b := Range(2, 13), Range(15, 13);
    assert [q] + [] == [q] && [b] + [] == [b] && [p] + [q] == [p, q] && [a] + [b] == [a, b];
    assert [b, a][1..] == [a] && [a][1..] == [];
    NoPayloads(asset);
    assert Payloads(asset, [a]) == [p] + [] == [p];
    assert Payloads(asset, [b, a]) == [q] + [p] == [q, p];
  }

  /** Two segments of one box instance, the later packet first: the code joins them the
      wrong way round. */
  lemma FileOrderIsNotReassembly(p: Byte, q: Byte)
    ensures var asset := TwoSegments(OneByteSegment(1, 2, p), OneByteSegment(1, 1, q));
            var w := Walk(asset, 2);
            w.store == [p, q] && Payloads(asset, Reassembled(asset, w.ranges)) == [q, p]
  {
    hide Instance, Sequence, Walk, Payloads, Reassembled, TwoSegments;
    var first, second := OneByteSegment(1, 2, p), OneByteSegment(1, 1, q);
    var asset := TwoSegments(first, second);
    TwoSegmentsLie(first, second);
    TwoSegmentsFound(asset, p, q);
    TwoReassembled(asset, Range(2, 13), Range(15, 13));
  }

  lemma TwoReassembled(asset: seq<Byte>, a: Range, b: Range)
    requires Instance(asset, a) == Instance(asset, b) && Sequence(asset, a) > Sequence(asset, b)
    ensures Reassembled(asset, [a, b]) == [b, a]
  {
    hide Instance, Sequence;
    assert [a, b][..1] == [a] && [a][..0] == [] && [a][..|[a]| - 1] == [];
    assert OfInstance(asset, [a], Instance(asset, a)) == [a];
    assert OfInstance(asset, [a, b], Instance(asset, a)) == [a, b];
    assert BySequence(asset, [a]) == [a];
    assert InsertBySequence(asset, [], b) == [b];
  }

  /** findJPEGManifest, before the box tree is unwrapped. */
  method FindJpegManifest(asset: seq<Byte>) returns (found: Found)
    ensures found == Walk(asset, 2)
    ensures found.ranges == [] <==> found.store == []
    ensures |asset| >= 2 ==> Ordered(found.ranges, 2, |asset|)
  {
    hide Ordered, Word, Walk, CarriesManifest, Standalone;
    WalkIsOrdered(asset, 2);
    var store: seq<Byte> := [];
    var ranges: seq<Range> := [];
    var i := 2;
    AfterNothing(Walk(asset, 2));
    while i + 4 <= |asset|
      invariant 2 <= i
      invariant Walk(asset, 2) == After(store, ranges, Walk(asset, i))
      decreases |asset| - i
    {
      WalkFrom(asset, i);
      if asset[i] != 0xFF {
        i := i + 1;
        continue;
      }
      var marker := asset[i + 1];
      if Standalone(marker) {
        i := i + 2;
        continue;
      }
      if marker == 0xDA { break; }
      var length := Word(asset, i + 2);
      if length < 2 || i + 2 + length > |asset| { break; }
      var body := asset[i + 4..i + 2 + length];
      if CarriesManifest(marker, body) {
        AfterOne(store, ranges, Manifest(body), Range(i, 2 + length), Walk(asset, i + 2 + length));
        store := store + Manifest(body);
        ranges := ranges + [Range(i, 2 + length)];
      }
      i := i + 2 + length;
    }
    WalkFrom(asset, i);
    AfterAll(store, ranges);
    found := Found(store, ranges);
  }

  /** The payload of a manifest segment, past its header. */
  function Manifest(body: seq<Byte>): seq<Byte> {
    if |body| >= 8 then body[8..] else []
  }

  /** What was found before, in front of what is found from here on. */
  function After(store: seq<Byte>, ranges: seq<Range>, rest: Found): Found {
    Found(store + rest.store, ranges + rest.ranges)
  }

  lemma AfterNothing(w: Found)
    ensures After([], [], w) == w
  {
    assert [] + w.store == w.store && [] + w.ranges == w.ranges;
  }

  lemma AfterAll(store: seq<Byte>, ranges: seq<Range>)
    ensures After(store, ranges, Found([], [])) == Found(store, ranges)
  {
    assert store + [] == store && ranges + [] == ranges;
  }

  lemma AfterOne(store: seq<Byte>, ranges: seq<Range>, piece: seq<Byte>, r: Range, rest: Found)
    ensures After(store, ranges, After(piece, [r], rest)) == After(store + piece, ranges + [r], rest)
  {
    assert store + (piece + rest.store) == store + piece + rest.store;
    assert ranges + ([r] + rest.ranges) == ranges + [r] + rest.ranges;
  }

  /** One step of the walk. */
  lemma WalkFrom(asset: seq<Byte>, i: nat)
    ensures Walk(asset, i)
            == if i + 4 > |asset| then Found([], [])
               else if asset[i] != 0xFF then Walk(asset, i + 1)
               else if Standalone(asset[i + 1]) then Walk(asset, i + 2)
               else if asset[i + 1] == 0xDA then Found([], [])
               else if Word(asset, i + 2) < 2 || i + 2 + Word(asset, i + 2) > |asset| then Found([], [])
               else
                 var next := i + 2 + Word(asset, i + 2);
                 var body := asset[i + 4..next];
                 if CarriesManifest(asset[i + 1], body)
                 then After(Manifest(body), [Range(i, next - i)], Walk(asset, next))
                 else Walk(asset, next)
  {
    hide Word, Standalone;
  }

  lemma OrderedFrom(ranges: seq<Range>, lo: nat, later: nat, hi: nat)
    requires Ordered(ranges, later, hi) && lo <= later
    ensures Ordered(ranges, lo, hi)
  {
  }

  /** The ranges are in bounds, ascending and disjoint, and there is one for every
      piece of the manifest. */
  lemma {:induction false} WalkIsOrdered(asset: seq<Byte>, i: nat)
    ensures var w := Walk(asset, i);
            && (i <= |asset| ==> Ordered(w.ranges, i, |asset|))
            && (w.ranges == [] <==> w.store == [])
    decreases |asset| - i
  {
    if i + 4 > |asset| {
    } else {
      if asset[i] != 0xFF {
        WalkIsOrdered(asset, i + 1);
        OrderedFrom(Walk(asset, i).ranges, i, i + 1, |asset|);
      } else if Standalone(asset[i + 1]) {
        WalkIsOrdered(asset, i + 2);
        OrderedFrom(Walk(asset, i).ranges, i, i + 2, |asset|);
      } else if asset[i + 1] != 0xDA {
        var next := i + 2 + Word(asset, i + 2);
        if Word(asset, i + 2) >= 2 && next <= |asset| {
          WalkIsOrdered(asset, next);
          var rest := Walk(asset, next);
          OrderedFrom(rest.ranges, i, next, |asset|);
          assert ([Range(i, next - i)] + rest.ranges)[1..] == rest.ranges;
        }
      }
    }
  }

  /** The bytes a JPEG's hard binding hashes: the file without its manifest
      segments, byte for byte and in order. */
  method BoundBytes(asset: seq<Byte>) returns (out: seq<Byte>)
    requires |asset| >= 2
    ensures out == Outside(asset, Walk(asset, 2).ranges, 0)
    ensures |out| == |asset| - TotalLength(Walk(asset, 2).ranges)
  {
    var found := FindJpegManifest(asset);
    OrderedFrom(found.ranges, 0, 2, |asset|);
    out := ExcludeRanges(asset, found.ranges);
  }

  // ---- PNG --------------------------------------------------------------------------

  function Long(asset: seq<Byte>, i: nat): nat
    requires i + 4 <= |asset|
  {
    0x1_0000 * Word(asset, i) + Word(asset, i + 2)
  }

  const CABX: seq<Byte> := [0x63, 0x61, 0x42, 0x58]
  const IEND: seq<Byte> := [0x49, 0x45, 0x4E, 0x44]

  /** The positions at which chunks start, up to the first one that ends the walk. */
  predicate ChunkAt(asset: seq<Byte>, i: nat) {
    i + 12 <= |asset| && i + 12 + Long(asset, i) <= |asset|
  }

  function ChunkType(asset: seq<Byte>, i: nat): seq<Byte>
    requires ChunkAt(asset, i)
  {
    asset[i + 4..i + 8]
  }

  /** The first caBX chunk reached from position i before IEND or a broken chunk. */
  function FirstManifestChunk(asset: seq<Byte>, i: nat): Option<nat>
    decreases |asset| - i
  {
    if !ChunkAt(asset, i) then None
    else if ChunkType(asset, i) == CABX then Some(i)
    else if ChunkType(asset, i) == IEND then None
    else FirstManifestChunk(asset, i + 12 + Long(asset, i))
  }

  /** findPNGManifest: the data of that chunk, and the whole chunk as the one
      excluded range. */
  method FindPngManifest(asset: seq<Byte>) returns (found: Found)
    ensures var c := FirstManifestChunk(asset, 8);
            if c.None? then found == Found([], [])
            else ChunkAt(asset, c.value) && ChunkType(asset, c.value) == CABX
                 && found == Found(asset[c.value + 8..c.value + 8 + Long(asset, c.value)],
                                   [Range(c.value, 12 + Long(asset, c.value))])
    ensures Ordered(found.ranges, 0, |asset|)
  {
    var i := 8;
    while i + 12 <= |asset|
      invariant FirstManifestChunk(asset, i) == FirstManifestChunk(asset, 8)
      decreases |asset| - i
    {
      var length := Long(asset, i);
      if i + 12 + length > |asset| { break; }
      var kind := asset[i + 4..i + 8];
      if kind == CABX {
        found := Found(asset[i + 8..i + 8 + length], [Range(i, 12 + length)]);
        assert found.ranges[1..] == [];
        return;
      }
      if kind == IEND { break; }
      i := i + 12 + length;
    }
    return Found([], []);
  }
}
