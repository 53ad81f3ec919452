/** The decoder as a loop, and what it guarantees on any bytes: an item is decided
    by the bytes it consumes, and no encoding is a proper prefix of another. */
module Codec {
  import opened Money
  import opened Cbor

  // ---- the decoder is self-delimiting -------------------------------------------------

  lemma ArgumentIsLocal(b: seq<Byte>, c: seq<Byte>, n: nat)
    requires b != [] && Argument(b).Ok? && Argument(b).value.size <= n <= |b| && n <= |c| && b[..n] == c[..n]
    ensures c != [] && c[0] == b[0] && Argument(c) == Argument(b)
  {
    var size := Argument(b).value.size;
    SameSlice(b, c, n, 0, 1);
    assert b[0] == b[0..1][0] && c[0] == c[0..1][0];
    SameSlice(b, c, n, 1, size);
  }

  lemma SameSlice(b: seq<Byte>, c: seq<Byte>, n: nat, lo: nat, hi: nat)
    requires lo <= hi <= n <= |b| && n <= |c| && b[..n] == c[..n]
    ensures b[lo..hi] == c[lo..hi]
  {
    assert b[lo..hi] == b[..n][lo..hi];
    assert c[lo..hi] == c[..n][lo..hi];
  }

  lemma SameTail(b: seq<Byte>, c: seq<Byte>, n: nat, k: nat)
    requires k <= n <= |b| && n <= |c| && b[..n] == c[..n]
    ensures b[k..][..n - k] == c[k..][..n - k]
  {
    assert b[k..][..n - k] == b[..n][k..];
    assert c[k..][..n - k] == c[..n][k..];
  }

  /** What an item consumed decides its value: any bytes that begin with them decode
      to the same value and the same length, whatever follows, although the
      decoder also looks at how many bytes remain. */
  lemma {:induction false} SelfDelimiting(b: seq<Byte>, c: seq<Byte>, depth: nat)
    requires DecodeAt(b, depth).Ok? && DecodeAt(b, depth).value.used <= |c|
    requires b[..DecodeAt(b, depth).value.used] == c[..DecodeAt(b, depth).value.used]
    ensures DecodeAt(c, depth) == DecodeAt(b, depth)
    decreases MAX_NESTING + 2 - depth, 1
  {
    hide Argument, DecodeBody, Major, Minor;
    var n := DecodeAt(b, depth).value.used;
    var h := Argument(b).value;
    ArgumentIsLocal(b, c, n);
    SameTail(b, c, n, h.size);
    BodySelfDelimiting(Major(b[0]), Minor(b[0]), h.arg, b[h.size..], c[h.size..], depth);
  }

  lemma {:induction false} BodySelfDelimiting(major: nat, minor: nat, arg: nat, b: seq<Byte>, c: seq<Byte>, depth: nat)
    requires major < 8 && depth <= MAX_NESTING
    requires DecodeBody(major, minor, arg, b, depth).Ok? && DecodeBody(major, minor, arg, b, depth).value.used <= |c|
    requires b[..DecodeBody(major, minor, arg, b, depth).value.used]
             == c[..DecodeBody(major, minor, arg, b, depth).value.used]
    ensures DecodeBody(major, minor, arg, c, depth) == DecodeBody(major, minor, arg, b, depth)
    decreases MAX_NESTING + 2 - depth, 0
  {
    hide DecodeAt, DecodeItems, Simple, Evens, Odds, CheckCount;
    match major
    case 4 =>
      CountStillFits(arg, |b|, |c|);
      ItemsSelfDelimiting(b, c, arg, depth + 1);
    case 5 =>
      CountStillFits(arg, |b|, |c|);
      ItemsSelfDelimiting(b, c, 2 * arg, depth + 1);
    case 6 => SelfDelimiting(b, c, depth + 1);
    case _ =>
  }

  lemma CountStillFits(count: nat, remaining: nat, other: nat)
    requires CheckCount(count, remaining).Ok? && count <= other
    ensures CheckCount(count, other).Ok?
  {
  }

  lemma {:induction false} ItemsSelfDelimiting(b: seq<Byte>, c: seq<Byte>, count: nat, depth: nat)
    requires DecodeItems(b, count, depth).Ok? && DecodeItems(b, count, depth).value.used <= |c|
    requires b[..DecodeItems(b, count, depth).value.used] == c[..DecodeItems(b, count, depth).value.used]
    ensures DecodeItems(c, count, depth) == DecodeItems(b, count, depth)
    decreases MAX_NESTING + 2 - depth, count + 2
  {
    hide DecodeAt;
    if count == 0 {
    } else {
      var n := DecodeItems(b, count, depth).value.used;
      var first := DecodeAt(b, depth).value;
      SameTail(b, c, n, 0);
      assert b[..first.used] == b[..n][..first.used] == c[..n][..first.used] == c[..first.used];
      SelfDelimiting(b, c, depth);
      SameTail(b, c, n, first.used);
      ItemsSelfDelimiting(b[first.used..], c[first.used..], count - 1, depth);
    }
  }

  /** No accepted encoding is a proper prefix of another. */
  lemma PrefixFree(b: seq<Byte>, c: seq<Byte>)
    requires DecodeAt(b, 0).Ok? && DecodeAt(b, 0).value.used == |b|
    requires DecodeAt(c, 0).Ok? && DecodeAt(c, 0).value.used == |c|
    requires b <= c
    ensures b == c
  {
    assert b[..|b|] == c[..|b|];
    SelfDelimiting(b, c, 0);
  }

  // ---- the decoder's loop --------------------------------------------------------------

  /** Items already read, in front of the rest. */
  function Onto(items: seq<Value>, used: nat, rest: Result<DecodedItems, Error>): Result<DecodedItems, Error> {
    match rest
    case Ok(d) => Ok(DecodedItems(items + d.items, used + d.used))
    case Err(e) => Err(e)
  }

  /** decodeCBORAt, advancing an offset through the elements of a collection. */
  method Decode(b: seq<Byte>, depth: nat) returns (r: Result<Decoded, Error>)
    ensures r == DecodeAt(b, depth)
    decreases MAX_NESTING + 2 - depth, 1
  {
    hide Argument, DecodeBody, Major, Minor;
    if depth > MAX_NESTING { return Err(TooDeep); }
    if b == [] { return Err(Truncated); }
    var head := Argument(b);
    if head.Err? { return Err(head.error); }
    var h := head.value;
    var d := DecodeRest(Major(b[0]), Minor(b[0]), h.arg, b[h.size..], depth);
    if d.Err? { return Err(d.error); }
    return Ok(Decoded(d.value.value, h.size + d.value.used));
  }

  method DecodeRest(major: nat, minor: nat, arg: nat, rest: seq<Byte>, depth: nat) returns (r: Result<Decoded, Error>)
    requires major < 8 && depth <= MAX_NESTING
    ensures r == DecodeBody(major, minor, arg, rest, depth)
    decreases MAX_NESTING + 2 - depth, 0
  {
    hide DecodeAt, DecodeItems, Simple, Evens, Odds, CheckCount;
    if major == 0 { return Ok(Decoded(UInt(arg), 0)); }
    if major == 1 {
      if arg > MAX_INT64 { return Err(Unsupported); }
      return Ok(Decoded(NegInt(-1 - arg), 0));
    }
    if major == 2 || major == 3 {
      if arg > |rest| { return Err(Truncated); }
      var payload := rest[..arg];
      return Ok(Decoded(if major == 2 then Bytes(payload) else Text(payload), arg));
    }
    if major == 4 {
      var count := CheckCount(arg, |rest|);
      if count.Err? { return Err(count.error); }
      var d := DecodeLoop(rest, arg, depth + 1);
      if d.Err? { return Err(d.error); }
      return Ok(Decoded(Array(d.value.items), d.value.used));
    }
    if major == 5 {
      var count := CheckCount(arg, |rest|);
      if count.Err? { return Err(count.error); }
      r := DecodePairs(rest, arg, depth + 1);
      return;
    }
    if major == 6 {
      var d := Decode(rest, depth + 1);
      if d.Err? { return Err(d.error); }
      return Ok(Decoded(Tag(arg, d.value.value), d.value.used));
    }
    var v := Simple(minor, arg);
    if v.Err? { return Err(v.error); }
    return Ok(Decoded(v.value, 0));
  }

  method DecodeLoop(b: seq<Byte>, count: nat, depth: nat) returns (r: Result<DecodedItems, Error>)
    requires depth <= MAX_NESTING + 1
    ensures r == DecodeItems(b, count, depth)
    decreases MAX_NESTING + 2 - depth, count + 2
  {
    hide DecodeAt, DecodeItems;
    var items: seq<Value> := [];
    var off: nat := 0;
    var i := 0;
    assert b[0..] == b;
    OntoNothing(DecodeItems(b, count, depth));
    while i < count
      invariant 0 <= i <= count && off <= |b|
      invariant DecodeItems(b, count, depth) == Onto(items, off, DecodeItems(b[off..], count - i, depth))
    {
      var d := Decode(b[off..], depth);
      OneMoreItem(b, off, items, count - i, depth);
      if d.Err? { return Err(d.error); }
      items := items + [d.value.value];
      off := off + d.value.used;
      i := i + 1;
    }
    NoMoreItems(b[off..], items, off, depth);
    return Ok(DecodedItems(items, off));
  }

  /** The loop over the entries of a map: a key, then its value. */
  method DecodePairs(b: seq<Byte>, count: nat, depth: nat) returns (r: Result<Decoded, Error>)
    requires depth <= MAX_NESTING + 1
    ensures var d := DecodeItems(b, 2 * count, depth);
            r == if d.Err? then Err(d.error)
                 else Ok(Decoded(Map(Evens(d.value.items), Odds(d.value.items)), d.value.used))
    decreases MAX_NESTING + 2 - depth, 2 * count + 2
  {
    hide DecodeAt, DecodeItems, Evens, Odds, Paired;
    var keys: seq<Value>, vals: seq<Value> := [], [];
    var off: nat := 0;
    var i := 0;
    assert b[0..] == b;
    PairedNothing();
    OntoNothing(DecodeItems(b, 2 * count, depth));
    while i < count
      invariant 0 <= i <= count && off <= |b| && |keys| == |vals|
      invariant DecodeItems(b, 2 * count, depth)
                == Onto(Paired(keys, vals), off, DecodeItems(b[off..], 2 * (count - i), depth))
    {
      var k := Decode(b[off..], depth);
      OneMoreItem(b, off, Paired(keys, vals), 2 * (count - i), depth);
      if k.Err? { return Err(k.error); }
      ghost var half := Paired(keys, vals) + [k.value.value];
      off := off + k.value.used;
      var v := Decode(b[off..], depth);
      OneMoreItem(b, off, half, 2 * (count - i) - 1, depth);
      if v.Err? { return Err(v.error); }
      off := off + v.value.used;
      PairedAppend(keys, vals, k.value.value, v.value.value);
      keys := keys + [k.value.value];
      vals := vals + [v.value.value];
      i := i + 1;
    }
    NoMoreItems(b[off..], Paired(keys, vals), off, depth);
    Unpaired(keys, vals);
    return Ok(Decoded(Map(keys, vals), off));
  }

  /** A key and its value, and so on, one after the other. */
  function Paired<A>(keys: seq<A>, vals: seq<A>): (r: seq<A>)
    requires |keys| == |vals|
    ensures |r| == 2 * |keys|
  {
    if keys == [] then [] else [keys[0], vals[0]] + Paired(keys[1..], vals[1..])
  }

  lemma {:induction false} Unpaired(keys: seq<Value>, vals: seq<Value>)
    requires |keys| == |vals|
    ensures Evens(Paired(keys, vals)) == keys && Odds(Paired(keys, vals)) == vals
  {
    if keys == [] {
    } else {
      Unpaired(keys[1..], vals[1..]);
      assert Paired(keys, vals)[2..] == Paired(keys[1..], vals[1..]);
      assert [keys[0]] + keys[1..] == keys && [vals[0]] + vals[1..] == vals;
    }
  }

  lemma PairedNothing()
    ensures Paired<Value>([], []) == []
  {
  }

  lemma {:induction false} PairedAppend(keys: seq<Value>, vals: seq<Value>, k: Value, v: Value)
    requires |keys| == |vals|
    ensures Paired(keys + [k], vals + [v]) == Paired(keys, vals) + [k] + [v]
  {
    if keys == [] {
      assert [k][1..] == [] && [v][1..] == [];
    } else {
      PairedAppend(keys[1..], vals[1..], k, v);
      assert (keys + [k])[1..] == keys[1..] + [k] && (vals + [v])[1..] == vals[1..] + [v];
    }
  }

  lemma OntoNothing(rest: Result<DecodedItems, Error>)
    ensures Onto([], 0, rest) == rest
  {
    if rest.Ok? { assert [] + rest.value.items == rest.value.items; }
  }

  lemma NoMoreItems(b: seq<Byte>, items: seq<Value>, used: nat, depth: nat)
    ensures Onto(items, used, DecodeItems(b, 0, depth)) == Ok(DecodedItems(items, used))
  {
    assert items + [] == items;
  }

  lemma OneMoreItem(b: seq<Byte>, off: nat, items: seq<Value>, count: nat, depth: nat)
    requires off <= |b| && count > 0
    ensures var d := DecodeAt(b[off..], depth);
            && (d.Err? ==> Onto(items, off, DecodeItems(b[off..], count, depth)) == Err(d.error))
            && (d.Ok? ==> off + d.value.used <= |b|
                          && Onto(items, off, DecodeItems(b[off..], count, depth))
                             == Onto(items + [d.value.value], off + d.value.used,
                                     DecodeItems(b[off + d.value.used..], count - 1, depth)))
  {
    hide DecodeAt, Argument;
    var tail := b[off..];
    var d := DecodeAt(tail, depth);
    if depth > MAX_NESTING { DeepIsRefused(tail, depth); }
    if d.Ok? {
      assert tail[d.value.used..] == b[off + d.value.used..];
      var rest := DecodeItems(tail[d.value.used..], count - 1, depth);
      if rest.Ok? { assert items + ([d.value.value] + rest.value.items) == items + [d.value.value] + rest.value.items; }
    }
  }

  lemma DeepIsRefused(b: seq<Byte>, depth: nat)
    requires depth > MAX_NESTING
    ensures DecodeAt(b, depth) == Err(TooDeep)
  {
  }
}
