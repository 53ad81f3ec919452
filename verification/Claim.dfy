/** The order-insensitive comparison of two decoded claims
    (internal/modules/provenance/c2pa.go). */
module Claim {
  import opened Money
  import opened Cbor

  /** Keys and values of a map are parallel, as the decoder builds them. */
  predicate Shaped(v: Value)
    decreases v
  {
    match v
    case Array(items) => forall i :: 0 <= i < |items| ==> Shaped(items[i])
    case Map(keys, vals) =>
      && |keys| == |vals|
      && (forall i :: 0 <= i < |keys| ==> Shaped(keys[i]))
      && (forall i :: 0 <= i < |vals| ==> Shaped(vals[i]))
    case Tag(_, inner) => Shaped(inner)
    case _ => true
  }

  /** lookupText: the first entry with this text key. */
  function FindText(keys: seq<Value>, name: seq<Byte>): (r: Option<nat>)
    ensures r.Some? ==> r.value < |keys| && keys[r.value] == Text(name)
    ensures r.None? ==> forall i :: 0 <= i < |keys| ==> keys[i] != Text(name)
  {
    if keys == [] then None
    else if keys[0] == Text(name) then Some(0)
    else
      var rest := FindText(keys[1..], name);
      if rest.Some? then Some(rest.value + 1)
      else
        assert forall i :: 1 <= i < |keys| ==> keys[i] == keys[1..][i - 1];
        None
  }

  /** sameClaim. */
  predicate SameClaim(a: Value, b: Value)
    requires Shaped(a) && Shaped(b)
    decreases a
  {
    match a
    case Map(keys, vals) =>
      && b.Map? && |keys| == |b.keys|
      && forall i :: 0 <= i < |keys| ==>
                       if keys[i].Text? then
                         var found := FindText(b.keys, keys[i].text);
                         found.Some? && SameClaim(vals[i], b.vals[found.value])
                       else SameClaim(keys[i], b.keys[i]) && SameClaim(vals[i], b.vals[i])
    case Array(items) =>
      b.Array? && |items| == |b.items| && forall i :: 0 <= i < |items| ==> SameClaim(items[i], b.items[i])
    case Bytes(x) => b.Bytes? && x == b.bytes
    case Text(x) => b.Text? && x == b.text
    case UInt(n) => b.UInt? && n == b.uint
    case NegInt(n) => b.NegInt? && n == b.neg
    case Bool(x) => b.Bool? && x == b.b
    case FloatValue(f) => b.FloatValue? && FloatEqual(f, b.f)
    case Tag(t, inner) => b.Tag? && t == b.tag && SameClaim(inner, b.tagged)
    case Null => b.Null?
    case Undefined => b.Undefined?
  }

  /** Floating-point equality: not a number equals nothing, itself included. */
  predicate FloatEqual(x: Float, y: Float) {
    !x.NaN? && x == y
  }

  // ---- the meaning of a claim -----------------------------------------------------------

  /** A claim with the order of map entries forgotten. */
  datatype Meaning =
    | Leaf(v: Value)
    | Items(items: seq<Meaning>)
    | Entries(entries: map<seq<Byte>, Meaning>)
    | Tagged(tag: nat, inner: Meaning)

  /** Every map has text keys only, no two of them equal. */
  predicate DistinctKeys(v: Value)
    decreases v
  {
    match v
    case Array(items) => forall i :: 0 <= i < |items| ==> DistinctKeys(items[i])
    case Map(keys, vals) =>
      && |keys| == |vals|
      && (forall i :: 0 <= i < |keys| ==> keys[i].Text?)
      && (forall i, j :: 0 <= i < j < |keys| ==> keys[i] != keys[j])
      && (forall i :: 0 <= i < |vals| ==> DistinctKeys(vals[i]))
    case Tag(_, inner) => DistinctKeys(inner)
    case _ => true
  }

  predicate NoNaN(v: Value)
    requires DistinctKeys(v)
    decreases v
  {
    match v
    case Array(items) => forall i :: 0 <= i < |items| ==> NoNaN(items[i])
    case Map(keys, vals) => forall i :: 0 <= i < |vals| ==> NoNaN(vals[i])
    case Tag(_, inner) => NoNaN(inner)
    case FloatValue(f) => !f.NaN?
    case _ => true
  }

  function MeaningOf(v: Value): Meaning
    requires DistinctKeys(v)
    decreases v
  {
    match v
    case Array(items) => Items(seq(|items|, i requires 0 <= i < |items| => MeaningOf(items[i])))
    case Map(keys, vals) => Entries(Dictionary(keys, seq(|vals|, i requires 0 <= i < |vals| => MeaningOf(vals[i]))))
    case Tag(t, inner) => Tagged(t, MeaningOf(inner))
    case _ => Leaf(v)
  }

  function KeySet(keys: seq<Value>): set<seq<Byte>> {
    set i | 0 <= i < |keys| && keys[i].Text? :: keys[i].text
  }

  /** What each text key stands for. */
  function Dictionary(keys: seq<Value>, meanings: seq<Meaning>): map<seq<Byte>, Meaning>
    requires |keys| == |meanings|
  {
    map name | name in KeySet(keys) :: meanings[FindText(keys, name).value]
  }

  lemma {:induction false} DistinctIsShaped(v: Value)
    requires DistinctKeys(v)
    ensures Shaped(v)
    decreases v
  {
    match v
    case Array(items) =>
      forall i | 0 <= i < |items| ensures Shaped(items[i]) { DistinctIsShaped(items[i]); }
    case Map(keys, vals) =>
      forall i | 0 <= i < |vals| ensures Shaped(vals[i]) { DistinctIsShaped(vals[i]); }
    case Tag(_, inner) => DistinctIsShaped(inner);
    case _ =>
  }

  // ---- pigeonhole over keys ---------------------------------------------------------------

  predicate TextKeys(keys: seq<Value>) {
    && (forall i :: 0 <= i < |keys| ==> keys[i].Text?)
    && (forall i, j :: 0 <= i < j < |keys| ==> keys[i] != keys[j])
  }

  lemma {:induction false} DistinctCount(keys: seq<Value>)
    requires TextKeys(keys)
    ensures |KeySet(keys)| == |keys|
  {
    if keys == [] {
    } else {
      var init, last := keys[..|keys| - 1], keys[|keys| - 1];
      DistinctCount(init);
      assert KeySet(keys) == KeySet(init) + {last.text};
    }
  }

  lemma SubsetOfSameSize(a: set<seq<Byte>>, b: set<seq<Byte>>)
    requires a <= b && |a| == |b|
    ensures a == b
  {
    assert b == a + (b - a);
    assert |b - a| == 0;
  }

  /** A text key of distinct keys is found where it stands. */
  lemma FoundInPlace(keys: seq<Value>, i: nat)
    requires TextKeys(keys) && i < |keys|
    ensures FindText(keys, keys[i].text) == Some(i) && keys[i].text in KeySet(keys)
  {
    assert keys[i] == Text(keys[i].text);
  }

  /** Every key of one list, at its place in the other. */
  predicate Matches(keys: seq<Value>, x: seq<Meaning>, others: seq<Value>, y: seq<Meaning>)
    requires TextKeys(keys) && |keys| == |x| && |others| == |y|
  {
    && |keys| == |others|
    && forall i :: 0 <= i < |keys| ==>
                     var found := FindText(others, keys[i].text);
                     found.Some? && x[i] == y[found.value]
  }

  lemma InKeySet(keys: seq<Value>, name: seq<Byte>)
    ensures name in KeySet(keys) <==> FindText(keys, name).Some?
  {
    if name in KeySet(keys) {
      var i :| 0 <= i < |keys| && keys[i].Text? && keys[i].text == name;
      assert keys[i] == Text(name);
    }
  }

  lemma KeyIsIn(keys: seq<Value>, i: nat)
    requires i < |keys| && keys[i].Text?
    ensures keys[i].text in KeySet(keys)
  {
  }

  /** Two dictionaries are equal exactly when they have as many keys and every key
      of one is in the other with the same meaning. */
  lemma SameDictionaryIff(keys: seq<Value>, x: seq<Meaning>, others: seq<Value>, y: seq<Meaning>)
    requires TextKeys(keys) && TextKeys(others) && |keys| == |x| && |others| == |y|
    ensures Dictionary(keys, x) == Dictionary(others, y) <==> Matches(keys, x, others, y)
  {
    hide KeySet, FindText, TextKeys, Matches;
    DistinctCount(keys);
    DistinctCount(others);
    var m, n := Dictionary(keys, x), Dictionary(others, y);
    assert m.Keys == KeySet(keys) && n.Keys == KeySet(others);
    if Matches(keys, x, others, y) {
      MatchesMeansSame(keys, x, others, y);
    }
    if m == n {
      SameMeansMatches(keys, x, others, y);
    }
  }

  lemma MatchesMeansSame(keys: seq<Value>, x: seq<Meaning>, others: seq<Value>, y: seq<Meaning>)
    requires TextKeys(keys) && TextKeys(others) && |keys| == |x| && |others| == |y| && Matches(keys, x, others, y)
    requires |KeySet(keys)| == |keys| && |KeySet(others)| == |others|
    ensures Dictionary(keys, x) == Dictionary(others, y)
  {
    hide KeySet, FindText;
    var m, n := Dictionary(keys, x), Dictionary(others, y);
    forall name | name in KeySet(keys) ensures name in KeySet(others) && m[name] == n[name] {
      InKeySet(keys, name);
      InKeySet(others, name);
      FoundInPlace(keys, FindText(keys, name).value);
    }
    SubsetOfSameSize(KeySet(keys), KeySet(others));
  }

  lemma SameMeansMatches(keys: seq<Value>, x: seq<Meaning>, others: seq<Value>, y: seq<Meaning>)
    requires TextKeys(keys) && TextKeys(others) && |keys| == |x| && |others| == |y|
    requires |KeySet(keys)| == |keys| && |KeySet(others)| == |others|
    requires Dictionary(keys, x) == Dictionary(others, y)
    ensures Matches(keys, x, others, y)
  {
    hide KeySet, FindText;
    var m, n := Dictionary(keys, x), Dictionary(others, y);
    assert m.Keys == KeySet(keys) && n.Keys == KeySet(others);
    forall i | 0 <= i < |keys|
      ensures FindText(others, keys[i].text).Some? && x[i] == y[FindText(others, keys[i].text).value]
    {
      FoundInPlace(keys, i);
      KeyIsIn(keys, i);
      InKeySet(others, keys[i].text);
      assert m[keys[i].text] == n[keys[i].text];
    }
  }

  // ---- the comparison decides equality of meaning -------------------------------------------

  /** On maps with pairwise distinct text keys, two claims compare as the same
      exactly when they mean the same, the order of map entries apart, and hold no
      floating-point not-a-number. */
  lemma {:induction false} SameClaimIff(a: Value, b: Value)
    requires DistinctKeys(a) && DistinctKeys(b)
    ensures Shaped(a) && Shaped(b)
    ensures SameClaim(a, b) <==> MeaningOf(a) == MeaningOf(b) && NoNaN(a)
    decreases a, 1
  {
    DistinctIsShaped(a);
    DistinctIsShaped(b);
    if a.Array? && b.Array? && |a.items| == |b.items| {
      SameArraysIff(a, b);
    } else if a.Map? && b.Map? {
      SameMapsIff(a, b);
    } else if a.Tag? && b.Tag? {
      SameClaimIff(a.tagged, b.tagged);
    }
  }

  lemma {:induction false} SameArraysIff(a: Value, b: Value)
    requires a.Array? && b.Array? && |a.items| == |b.items| && DistinctKeys(a) && DistinctKeys(b)
    requires Shaped(a) && Shaped(b)
    ensures SameClaim(a, b) <==> MeaningOf(a) == MeaningOf(b) && NoNaN(a)
    decreases a, 0
  {
    forall i | 0 <= i < |a.items|
      ensures SameClaim(a.items[i], b.items[i]) <==> MeaningOf(a.items[i]) == MeaningOf(b.items[i]) && NoNaN(a.items[i])
    {
      SameClaimIff(a.items[i], b.items[i]);
    }
    var x, y := MeaningOf(a).items, MeaningOf(b).items;
    assert forall i :: 0 <= i < |x| ==> x[i] == MeaningOf(a.items[i]) && y[i] == MeaningOf(b.items[i]);
  }

  lemma {:induction false} SameMapsIff(a: Value, b: Value)
    requires a.Map? && b.Map? && DistinctKeys(a) && DistinctKeys(b)
    requires Shaped(a) && Shaped(b)
    ensures SameClaim(a, b) <==> MeaningOf(a) == MeaningOf(b) && NoNaN(a)
    decreases a, 0
  {
    var x := seq(|a.vals|, i requires 0 <= i < |a.vals| => MeaningOf(a.vals[i]));
    var y := seq(|b.vals|, i requires 0 <= i < |b.vals| => MeaningOf(b.vals[i]));
    assert MeaningOf(a) == Entries(Dictionary(a.keys, x)) && MeaningOf(b) == Entries(Dictionary(b.keys, y));
    assert TextKeys(a.keys) && TextKeys(b.keys);
    SameDictionaryIff(a.keys, x, b.keys, y);
    forall i | 0 <= i < |a.keys| && FindText(b.keys, a.keys[i].text).Some?
      ensures var j := FindText(b.keys, a.keys[i].text).value;
              SameClaim(a.vals[i], b.vals[j]) <==> x[i] == y[j] && NoNaN(a.vals[i])
    {
      SameClaimIff(a.vals[i], b.vals[FindText(b.keys, a.keys[i].text).value]);
    }
    hide Dictionary, KeySet, MeaningOf;
  }

  /** Some entry of v has this key and this meaning. */
  predicate HasEntry(v: Value, key: Value, meaning: Meaning)
    requires v.Map? && DistinctKeys(v)
  {
    exists j :: 0 <= j < |v.keys| && v.keys[j] == key && MeaningOf(v.vals[j]) == meaning
  }

  /** Meaning forgets the order of entries and nothing else: two maps mean the same
      exactly when they have as many entries and each entry of one is an entry of
      the other, by key and by meaning. */
  lemma MeaningForgetsOnlyOrder(a: Value, b: Value)
    requires a.Map? && b.Map? && DistinctKeys(a) && DistinctKeys(b)
    ensures MeaningOf(a) == MeaningOf(b)
            <==> |a.keys| == |b.keys| && forall i :: 0 <= i < |a.keys| ==> HasEntry(b, a.keys[i], MeaningOf(a.vals[i]))
  {
    hide Dictionary, MeaningOf, Matches, DistinctKeys, FindText, KeySet, TextKeys, HasEntry;
    var x := MapMeaning(a);
    var y := MapMeaning(b);
    SameDictionaryIff(a.keys, x, b.keys, y);
    MatchesIff(a.keys, x, b.keys, y);
    forall i | 0 <= i < |a.keys|
      ensures HasPair(b.keys, y, a.keys[i], x[i]) <==> HasEntry(b, a.keys[i], MeaningOf(a.vals[i]))
    {
      EntryIsPair(b, y, a.keys[i], x[i]);
    }
    hide HasPair;
  }

  predicate HasPair(keys: seq<Value>, meanings: seq<Meaning>, key: Value, meaning: Meaning)
    requires |keys| == |meanings|
  {
    exists j :: 0 <= j < |keys| && keys[j] == key && meanings[j] == meaning
  }

  lemma EntryIsPair(v: Value, y: seq<Meaning>, key: Value, meaning: Meaning)
    requires v.Map? && DistinctKeys(v) && |y| == |v.keys|
    requires forall j :: 0 <= j < |v.vals| ==> y[j] == MeaningOf(v.vals[j])
    ensures HasPair(v.keys, y, key, meaning) <==> HasEntry(v, key, meaning)
  {
    hide MeaningOf;
    if HasPair(v.keys, y, key, meaning) {
      var j :| 0 <= j < |v.keys| && v.keys[j] == key && y[j] == meaning;
      assert MeaningOf(v.vals[j]) == meaning;
    }
    if HasEntry(v, key, meaning) {
      var j :| 0 <= j < |v.keys| && v.keys[j] == key && MeaningOf(v.vals[j]) == meaning;
      assert y[j] == meaning;
    }
  }

  /** The meaning of a map, as a dictionary of the meanings of its values. */
  lemma MapMeaning(v: Value) returns (x: seq<Meaning>)
    requires v.Map? && DistinctKeys(v)
    ensures TextKeys(v.keys) && |x| == |v.keys| == |v.vals|
    ensures forall i :: 0 <= i < |v.vals| ==> DistinctKeys(v.vals[i]) && x[i] == MeaningOf(v.vals[i])
    ensures MeaningOf(v) == Entries(Dictionary(v.keys, x))
  {
    x := seq(|v.vals|, i requires 0 <= i < |v.vals| => MeaningOf(v.vals[i]));
    assert TextKeys(v.keys) && |x| == |v.keys|;
    assert MeaningOf(v) == Entries(Dictionary(v.keys, x));
  }

  lemma MatchesIff(keys: seq<Value>, x: seq<Meaning>, others: seq<Value>, y: seq<Meaning>)
    requires TextKeys(keys) && TextKeys(others) && |keys| == |x| && |others| == |y|
    ensures Matches(keys, x, others, y)
            <==> |keys| == |others| && forall i :: 0 <= i < |keys| ==> HasPair(others, y, keys[i], x[i])
  {
    hide FindText, KeySet;
    forall i | 0 <= i < |keys|
      ensures HasPair(others, y, keys[i], x[i])
              <==> FindText(others, keys[i].text).Some? && x[i] == y[FindText(others, keys[i].text).value]
    {
      if HasPair(others, y, keys[i], x[i]) {
        var j :| 0 <= j < |others| && others[j] == keys[i] && y[j] == x[i];
        FoundInPlace(others, j);
      }
      if FindText(others, keys[i].text).Some? {
        assert others[FindText(others, keys[i].text).value] == keys[i];
      }
    }
    hide HasPair;
  }

  /** Hence, without a not-a-number, the comparison is an equivalence. */
  lemma SameClaimIsAnEquivalence(a: Value, b: Value, c: Value)
    requires DistinctKeys(a) && DistinctKeys(b) && DistinctKeys(c) && NoNaN(a) && NoNaN(b)
    ensures Shaped(a) && Shaped(b) && Shaped(c)
    ensures SameClaim(a, a)
    ensures SameClaim(a, b) ==> SameClaim(b, a)
    ensures SameClaim(a, b) && SameClaim(b, c) ==> SameClaim(a, c)
  {
    SameClaimIff(a, a);
    SameClaimIff(a, b);
    SameClaimIff(b, a);
    SameClaimIff(b, c);
    SameClaimIff(a, c);
  }

  // ---- with repeated keys --------------------------------------------------------------

  /** The entry a key of one map is compared with in another. */
  function Partner(keys: seq<Value>, others: seq<Value>, i: nat): (r: Option<nat>)
    requires i < |keys| == |others|
    ensures r.Some? ==> r.value < |others| && others[r.value].Text? == keys[i].Text?
  {
    if keys[i].Text? then FindText(others, keys[i].text)
    else if others[i].Text? then None
    else Some(i)
  }

  /** One entry of the first map against the second. */
  predicate EntrySame(a: Value, b: Value, i: nat)
    requires a.Map? && b.Map? && Shaped(a) && Shaped(b) && i < |a.keys| == |b.keys|
  {
    if a.keys[i].Text? then
      var found := FindText(b.keys, a.keys[i].text);
      found.Some? && SameClaim(a.vals[i], b.vals[found.value])
    else SameClaim(a.keys[i], b.keys[i]) && SameClaim(a.vals[i], b.vals[i])
  }

  lemma EntryByPartner(a: Value, b: Value, i: nat)
    requires a.Map? && b.Map? && Shaped(a) && Shaped(b) && i < |a.keys| == |b.keys|
    ensures var p := Partner(a.keys, b.keys, i);
            EntrySame(a, b, i)
            <==> p.Some? && SameClaim(a.vals[i], b.vals[p.value])
                 && (a.keys[i].Text? || SameClaim(a.keys[i], b.keys[i]))
  {
    hide FindText;
    if !a.keys[i].Text? && b.keys[i].Text? {
      assert !SameClaim(a.keys[i], b.keys[i]);
    } else {
      hide SameClaim;
    }
  }

  lemma MapsByEntry(a: Value, b: Value)
    requires a.Map? && b.Map? && Shaped(a) && Shaped(b) && |a.keys| == |b.keys|
    ensures SameClaim(a, b) <==> forall i :: 0 <= i < |a.keys| ==> EntrySame(a, b, i)
  {
    hide FindText;
    var keys, vals := a.keys, a.vals;
    assert a == Map(keys, vals);
    if forall i :: 0 <= i < |keys| ==> EntrySame(a, b, i) {
      forall i | 0 <= i < |keys|
        ensures if keys[i].Text? then
                  var found := FindText(b.keys, keys[i].text); found.Some? && SameClaim(vals[i], b.vals[found.value])
                else SameClaim(keys[i], b.keys[i]) && SameClaim(vals[i], b.vals[i])
      {
        assert EntrySame(a, b, i);
      }
    }
  }

  /** SameClaim on maps, by partners: keys that are not text must compare as well. */
  lemma MapsByPartner(a: Value, b: Value)
    requires a.Map? && b.Map? && Shaped(a) && Shaped(b) && |a.keys| == |b.keys|
    ensures SameClaim(a, b)
            <==> forall i :: 0 <= i < |a.keys| ==>
                               var p := Partner(a.keys, b.keys, i);
                               p.Some? && SameClaim(a.vals[i], b.vals[p.value])
                               && (a.keys[i].Text? || SameClaim(a.keys[i], b.keys[i]))
  {
    MapsByEntry(a, b);
    hide SameClaim, FindText, Partner, EntrySame;
    forall i | 0 <= i < |a.keys|
      ensures var p := Partner(a.keys, b.keys, i);
              EntrySame(a, b, i)
              <==> p.Some? && SameClaim(a.vals[i], b.vals[p.value])
                   && (a.keys[i].Text? || SameClaim(a.keys[i], b.keys[i]))
    {
      EntryByPartner(a, b, i);
    }
  }

  lemma EntryOf(a: Value, b: Value, i: nat)
    requires a.Map? && Shaped(a) && Shaped(b) && SameClaim(a, b) && i < |a.keys|
    ensures b.Map? && |b.keys| == |a.keys|
    ensures var p := Partner(a.keys, b.keys, i);
            p.Some? && SameClaim(a.vals[i], b.vals[p.value]) && (a.keys[i].Text? || SameClaim(a.keys[i], b.keys[i]))
  {
    hide FindText;
    MapsByPartner(a, b);
  }

  lemma PartnerKey(keys: seq<Value>, others: seq<Value>, i: nat)
    requires i < |keys| == |others| && Partner(keys, others, i).Some? && keys[i].Text?
    ensures others[Partner(keys, others, i).value] == keys[i]
  {
  }

  /** Whatever the claims, repeated keys and keys that are not text included, the
      comparison is transitive. */
  lemma {:induction false} SameClaimIsTransitive(a: Value, b: Value, c: Value)
    requires Shaped(a) && Shaped(b) && Shaped(c) && SameClaim(a, b) && SameClaim(b, c)
    ensures SameClaim(a, c)
    decreases a
  {
    match a
    case Map(keys, vals) =>
      hide SameClaim, FindText, Partner;
      assert b.Map? && c.Map? && |keys| == |b.keys| == |c.keys| by { SameSize(a, b); SameSize(b, c); }
      forall i | 0 <= i < |keys|
        ensures var p := Partner(keys, c.keys, i);
                p.Some? && SameClaim(vals[i], c.vals[p.value]) && (keys[i].Text? || SameClaim(keys[i], c.keys[i]))
      {
        EntryOf(a, b, i);
        var p := Partner(keys, b.keys, i).value;
        EntryOf(b, c, p);
        SamePartner(keys, b.keys, c.keys, i);
        SameClaimIsTransitive(vals[i], b.vals[p], c.vals[Partner(b.keys, c.keys, p).value]);
        if !keys[i].Text? { SameClaimIsTransitive(keys[i], b.keys[i], c.keys[i]); }
      }
      MapsByPartner(a, c);
    case Array(items) =>
      forall i | 0 <= i < |items| ensures SameClaim(items[i], c.items[i]) {
        SameClaimIsTransitive(items[i], b.items[i], c.items[i]);
      }
    case Tag(_, inner) => SameClaimIsTransitive(inner, b.tagged, c.tagged);
    case _ =>
  }

  lemma SameSize(a: Value, b: Value)
    requires a.Map? && Shaped(a) && Shaped(b) && SameClaim(a, b)
    ensures b.Map? && |a.keys| == |b.keys| == |a.vals| == |b.vals|
  {
  }

  lemma SamePartner(x: seq<Value>, y: seq<Value>, z: seq<Value>, i: nat)
    requires |x| == |y| == |z| && i < |x| && Partner(x, y, i).Some?
    ensures var p := Partner(x, y, i).value;
            && Partner(y, z, p).Some? == Partner(x, z, i).Some?
            && (Partner(x, z, i).Some? ==> Partner(y, z, p) == Partner(x, z, i))
            && (!x[i].Text? ==> p == i)
  {
    hide FindText;
    if x[i].Text? { FoundText(y, x[i].text); }
  }

  lemma FoundText(keys: seq<Value>, name: seq<Byte>)
    ensures FindText(keys, name).Some? ==> keys[FindText(keys, name).value] == Text(name)
  {
  }

  /** Every key of b, at every depth the comparison reaches, has its partner in a. */
  predicate Covers(a: Value, b: Value)
    requires Shaped(a) && Shaped(b)
    decreases b
  {
    match b
    case Map(keys, vals) =>
      && a.Map? && |a.keys| == |keys|
      && forall j :: 0 <= j < |keys| ==>
                       var i := Partner(keys, a.keys, j);
                       i.Some? &&
                       var f := Partner(a.keys, keys, i.value);
                       f.Some? && Covers(a.vals[i.value], vals[f.value])
                       && (keys[j].Text? || Covers(a.keys[j], keys[j]))
    case Array(items) =>
      a.Array? && |a.items| == |items| && forall i :: 0 <= i < |items| ==> Covers(a.items[i], items[i])
    case Tag(_, inner) => a.Tag? && Covers(a.tagged, inner)
    case _ => true
  }

  lemma MapsMeetMaps(a: Value, b: Value)
    requires Shaped(a) && Shaped(b) && SameClaim(a, b) && b.Map?
    ensures a.Map? && |a.keys| == |b.keys| == |a.vals| == |b.vals|
  {
  }

  lemma {:induction false} MapIsCovered(a: Value, b: Value)
    requires Shaped(a) && Shaped(b) && a.Map? && b.Map? && SameClaim(a, b) && SameClaim(b, a)
    ensures Covers(a, b)
    decreases b, 0
  {
    hide SameClaim, FindText, Partner;
    SameSize(a, b);
    forall j | 0 <= j < |b.keys|
      ensures var i := Partner(b.keys, a.keys, j);
              i.Some? &&
              var f := Partner(a.keys, b.keys, i.value);
              f.Some? && Covers(a.vals[i.value], b.vals[f.value]) && (b.keys[j].Text? || Covers(a.keys[j], b.keys[j]))
    {
      hide Covers;
      EntryOf(b, a, j);
      var i := Partner(b.keys, a.keys, j).value;
      EntryOf(a, b, i);
      var f := Partner(a.keys, b.keys, i).value;
      SamePartner(b.keys, a.keys, b.keys, j);
      SamePartner(a.keys, b.keys, a.keys, i);
      SamePartner(b.keys, b.keys, a.keys, j);
      EntryOf(b, a, f);
      TurnsRoundIff(a.vals[i], b.vals[f]);
      if !b.keys[j].Text? { TurnsRoundIff(a.keys[j], b.keys[j]); }
    }
  }

  lemma {:induction false} CoveredMapTurns(a: Value, b: Value)
    requires Shaped(a) && Shaped(b) && a.Map? && b.Map? && SameClaim(a, b) && SameClaim(b, b) && Covers(a, b)
    ensures SameClaim(b, a)
    decreases b, 0
  {
    hide SameClaim, FindText, Partner;
    SameSize(a, b);
    forall j | 0 <= j < |b.keys|
      ensures var p := Partner(b.keys, a.keys, j);
              p.Some? && SameClaim(b.vals[j], a.vals[p.value]) && (b.keys[j].Text? || SameClaim(b.keys[j], a.keys[j]))
    {
      var i := Partner(b.keys, a.keys, j).value;
      hide Covers;
      EntryOf(a, b, i);
      var f := Partner(a.keys, b.keys, i).value;
      SamePartner(b.keys, a.keys, b.keys, j);
      SamePartner(b.keys, b.keys, b.keys, j);
      EntryOf(b, b, j);
      EntryOf(b, b, f);
      TurnsRoundIff(a.vals[i], b.vals[f]);
      SameClaimIsTransitive(b.vals[j], b.vals[f], a.vals[i]);
      if !b.keys[j].Text? { TurnsRoundIff(a.keys[j], b.keys[j]); }
    }
    MapsByPartner(b, a);
  }

  /** When the comparison can be turned round: for any two claims, once a compares the
      same as b, b compares the same as a if and only if b compares the same as
      itself and every key of b has its partner in a. */
  lemma {:induction false} TurnsRoundIff(a: Value, b: Value)
    requires Shaped(a) && Shaped(b) && SameClaim(a, b)
    ensures SameClaim(b, a) <==> SameClaim(b, b) && Covers(a, b)
    decreases b, 1
  {
    if SameClaim(b, a) { SameClaimIsTransitive(b, a, b); }
    match b
    case Map(keys, vals) =>
      hide SameClaim, FindText, Partner, Covers;
      assert a.Map? by { MapsMeetMaps(a, b); }
      if SameClaim(b, a) { MapIsCovered(a, b); }
      if SameClaim(b, b) && Covers(a, b) { CoveredMapTurns(a, b); }
    case Array(items) =>
      forall i | 0 <= i < |items|
        ensures SameClaim(items[i], a.items[i]) <==> SameClaim(items[i], items[i]) && Covers(a.items[i], items[i])
      {
        TurnsRoundIff(a.items[i], items[i]);
      }
    case Tag(_, inner) => TurnsRoundIff(a.tagged, inner);
    case _ =>
  }

  /** A map of text keys, repeated or not, whose values repeat none. */
  predicate TextMap(v: Value) {
    && v.Map? && |v.keys| == |v.vals|
    && (forall i :: 0 <= i < |v.keys| ==> v.keys[i].Text?)
    && (forall i :: 0 <= i < |v.vals| ==> DistinctKeys(v.vals[i]))
  }

  lemma TextMapIsShaped(v: Value)
    requires TextMap(v)
    ensures Shaped(v)
  {
    forall i | 0 <= i < |v.vals| ensures Shaped(v.vals[i]) { DistinctIsShaped(v.vals[i]); }
  }

  /** In terms of meaning: such maps compare as the same exactly when they have as
      many entries and every entry of the first means what the second's first entry
      under its key means. */
  lemma TextMapsIff(a: Value, b: Value)
    requires TextMap(a) && TextMap(b)
    ensures Shaped(a) && Shaped(b)
    ensures SameClaim(a, b)
            <==> |a.keys| == |b.keys|
                 && forall i :: 0 <= i < |a.keys| ==>
                                  var found := FindText(b.keys, a.keys[i].text);
                                  && found.Some? && NoNaN(a.vals[i])
                                  && MeaningOf(a.vals[i]) == MeaningOf(b.vals[found.value])
  {
    TextMapIsShaped(a);
    TextMapIsShaped(b);
    hide MeaningOf, NoNaN, DistinctKeys;
    forall i, j | 0 <= i < |a.keys| && 0 <= j < |b.keys|
      ensures SameClaim(a.vals[i], b.vals[j]) <==> MeaningOf(a.vals[i]) == MeaningOf(b.vals[j]) && NoNaN(a.vals[i])
    {
      SameClaimIff(a.vals[i], b.vals[j]);
    }
  }

  /** Entries under one key mean the same, and none holds a not-a-number. */
  predicate Agreeing(v: Value)
    requires TextMap(v)
  {
    && (forall j :: 0 <= j < |v.keys| ==> NoNaN(v.vals[j]))
    && forall j, k :: 0 <= j < |v.keys| && 0 <= k < |v.keys| && v.keys[j] == v.keys[k] ==>
                        MeaningOf(v.vals[j]) == MeaningOf(v.vals[k])
  }

  /** Then b compares the same as a if and only if every key of b is a key of a and
      the entries of b under one key agree. */
  lemma TextMapsTurnRoundIff(a: Value, b: Value)
    requires TextMap(a) && TextMap(b)
    ensures Shaped(a) && Shaped(b)
    ensures SameClaim(a, b) ==>
              (SameClaim(b, a) <==> Agreeing(b) && forall j :: 0 <= j < |b.keys| ==> b.keys[j] in a.keys)
  {
    TextMapIsShaped(a);
    TextMapIsShaped(b);
    hide SameClaim, MeaningOf, NoNaN, DistinctKeys, TextMap, Agreeing, Shaped;
    if SameClaim(a, b) {
      if SameClaim(b, a) { TurnedMeansAgreeing(a, b); }
      if Agreeing(b) && forall j :: 0 <= j < |b.keys| ==> b.keys[j] in a.keys { AgreeingTurns(a, b); }
    }
  }

  lemma TurnedMeansAgreeing(a: Value, b: Value)
    requires TextMap(a) && TextMap(b) && Shaped(a) && Shaped(b) && SameClaim(b, a)
    ensures Agreeing(b) && forall j :: 0 <= j < |b.keys| ==> b.keys[j] in a.keys
  {
    TextMapsIff(b, a);
    hide SameClaim, MeaningOf, NoNaN, DistinctKeys, FindText;
    forall j | 0 <= j < |b.keys| ensures b.keys[j] in a.keys {
      FoundText(a.keys, b.keys[j].text);
    }
  }

  lemma AgreeingTurns(a: Value, b: Value)
    requires TextMap(a) && TextMap(b) && Shaped(a) && Shaped(b) && SameClaim(a, b) && Agreeing(b)
    requires forall j :: 0 <= j < |b.keys| ==> b.keys[j] in a.keys
    ensures SameClaim(b, a)
  {
    TextMapsIff(a, b);
    hide SameClaim, MeaningOf, NoNaN, DistinctKeys, FindText;
    forall j | 0 <= j < |b.keys|
      ensures var i := FindText(a.keys, b.keys[j].text); i.Some? && MeaningOf(b.vals[j]) == MeaningOf(a.vals[i.value])
    {
      KeyIsFound(a.keys, b.keys[j]);
      KeyIsFound(b.keys, b.keys[j]);
    }
    TextMapsIff(b, a);
  }

  lemma KeyIsFound(keys: seq<Value>, key: Value)
    requires key in keys && key.Text?
    ensures FindText(keys, key.text).Some? && keys[FindText(keys, key.text).value] == key
  {
    assert key == Text(key.text);
  }

  /** With a repeated key it is not even symmetric: {x: 1, x: 1} passes against
      {x: 1, y: 2}, which does not pass against it. */
  lemma RepeatedKeysBreakSymmetry(x: seq<Byte>, y: seq<Byte>)
    requires x != y
    ensures var a := Map([Text(x), Text(x)], [UInt(1), UInt(1)]);
            var b := Map([Text(x), Text(y)], [UInt(1), UInt(2)]);
            && Shaped(a) && Shaped(b) && SameClaim(a, b) && !SameClaim(b, a)
  {
    var a := Map([Text(x), Text(x)], [UInt(1), UInt(1)]);
    var b := Map([Text(x), Text(y)], [UInt(1), UInt(2)]);
    assert a.keys[0] == Text(x) && a.keys[1] == Text(x) && b.keys[0] == Text(x) && b.keys[1] == Text(y);
    assert FindText(b.keys, x).Some? && FindText(a.keys, y).None?;
    assert b.keys[1] == Text(y);
  }
}
