/** The shortest-form encoder, and that decoding inverts it. */
module Encoder {
  import opened Money
  import opened Cbor
  import opened Codec

  /** The low `k` bytes of x, most significant first. */
  function ToBytes(x: nat, k: nat): (r: seq<Byte>)
    ensures |r| == k
  {
    if k == 0 then [] else ToBytes(x / 256, k - 1) + [x % 256]
  }

  function Pow256(k: nat): nat {
    if k == 0 then 1 else 256 * Pow256(k - 1)
  }

  lemma {:induction false} BytesRoundTrip(x: nat, k: nat)
    requires x < Pow256(k)
    ensures BigEndian(ToBytes(x, k)) == x
  {
    if k == 0 {
    } else {
      BytesRoundTrip(x / 256, k - 1);
      assert ToBytes(x, k)[..k - 1] == ToBytes(x / 256, k - 1);
    }
  }

  lemma {:induction false} BytesBound(b: seq<Byte>)
    ensures BigEndian(b) < Pow256(|b|)
  {
    if b == [] {
    } else {
      BytesBound(b[..|b| - 1]);
    }
  }

  lemma Powers()
    ensures Pow256(1) == 256 && Pow256(2) == TWO_16 && Pow256(4) == TWO_32 && Pow256(8) == TWO_64
  {
    assert Pow256(2) == 256 * Pow256(1) && Pow256(3) == 256 * Pow256(2) && Pow256(4) == 256 * Pow256(3);
    assert Pow256(5) == 256 * Pow256(4) && Pow256(6) == 256 * Pow256(5) && Pow256(7) == 256 * Pow256(6)
           && Pow256(8) == 256 * Pow256(7);
  }

  // ---- heads -----------------------------------------------------------------------

  /** How many bytes of argument follow the first byte, in the shortest form. */
  function Extra(arg: nat): nat {
    if arg < 24 then 0 else if arg < 256 then 1 else if arg < TWO_16 then 2 else if arg < TWO_32 then 4 else 8
  }

  function MinorFor(arg: nat): nat {
    if arg < 24 then arg else if arg < 256 then 24 else if arg < TWO_16 then 25 else if arg < TWO_32 then 26 else 27
  }

  function EncodeHead(major: nat, arg: nat): (r: seq<Byte>)
    requires major < 8 && arg < TWO_64
    ensures |r| == 1 + Extra(arg)
  {
    [major * 32 + MinorFor(arg)] + ToBytes(arg, Extra(arg))
  }

  /** A head is read back, whatever follows it. */
  lemma HeadRoundTrip(major: nat, arg: nat, rest: seq<Byte>)
    requires major < 8 && arg < TWO_64
    ensures var b := EncodeHead(major, arg) + rest;
            && Argument(b) == Ok(Head(arg, 1 + Extra(arg)))
            && Major(b[0]) == major && Minor(b[0]) == MinorFor(arg)
            && b[1 + Extra(arg)..] == rest
  {
    hide Major, Minor, BigEndian, ToBytes;
    var size := 1 + Extra(arg);
    var b := EncodeHead(major, arg) + rest;
    FirstByte(major, MinorFor(arg));
    assert b[0] == major * 32 + MinorFor(arg);
    assert b[size..] == rest;
    assert b[1..size] == ToBytes(arg, Extra(arg));
    if arg >= 24 {
      ExtraHolds(arg);
    }
  }

  lemma FirstByte(major: nat, minor: nat)
    requires major < 8 && minor < 32
    ensures Major(major * 32 + minor) == major && Minor(major * 32 + minor) == minor
  {
  }

  lemma ExtraHolds(arg: nat)
    requires 24 <= arg < TWO_64
    ensures BigEndian(ToBytes(arg, Extra(arg))) == arg
  {
    Powers();
    BytesRoundTrip(arg, Extra(arg));
  }

  /** Arguments never exceed 64 bits. */
  lemma ArgumentFits(b: seq<Byte>)
    requires b != [] && Argument(b).Ok?
    ensures Argument(b).value.arg < TWO_64
  {
    var h := Argument(b).value;
    Powers();
    if Minor(b[0]) >= 24 {
      BytesBound(b[1..h.size]);
    }
  }

  /** Shortest form: no head the decoder accepts carries the same argument in
      fewer bytes. */
  lemma HeadIsShortest(b: seq<Byte>, major: nat)
    requires b != [] && Argument(b).Ok? && major < 8
    ensures Argument(b).value.arg < TWO_64
    ensures |EncodeHead(major, Argument(b).value.arg)| <= Argument(b).value.size
  {
    ArgumentFits(b);
    var h := Argument(b).value;
    Powers();
    if Minor(b[0]) >= 24 {
      BytesBound(b[1..h.size]);
    }
  }

  // ---- strings and arrays -------------------------------------------------------------

  function EncodeBytes(x: seq<Byte>): seq<Byte>
    requires |x| <= MAX_INT64
  {
    EncodeHead(2, |x|) + x
  }

  function EncodeText(x: seq<Byte>): seq<Byte>
    requires |x| <= MAX_INT64
  {
    EncodeHead(3, |x|) + x
  }

  function Concat(items: seq<seq<Byte>>): seq<Byte> {
    if items == [] then [] else items[0] + Concat(items[1..])
  }

  function EncodeArray(items: seq<seq<Byte>>): seq<Byte>
    requires |items| <= MAX_INT64
  {
    EncodeHead(4, |items|) + Concat(items)
  }

  /** encodeCBORArray appends item after item to the head. */
  method BuildArray(items: seq<seq<Byte>>) returns (out: seq<Byte>)
    requires |items| <= MAX_INT64
    ensures out == EncodeArray(items)
  {
    hide EncodeHead;
    out := EncodeHead(4, |items|);
    var i := 0;
    while i < |items|
      invariant 0 <= i <= |items|
      invariant out + Concat(items[i..]) == EncodeArray(items)
    {
      assert items[i..][1..] == items[i + 1..];
      assert out + (items[i] + Concat(items[i + 1..])) == out + items[i] + Concat(items[i + 1..]);
      out := out + items[i];
      i := i + 1;
    }
    assert out + [] == out;
  }

  /** Byte and text strings decode to themselves, with any bytes after them. */
  lemma StringRoundTrip(x: seq<Byte>, rest: seq<Byte>, depth: nat)
    requires |x| <= MAX_INT64 && depth <= MAX_NESTING
    ensures DecodeAt(EncodeBytes(x) + rest, depth) == Ok(Decoded(Bytes(x), |EncodeBytes(x)|))
    ensures DecodeAt(EncodeText(x) + rest, depth) == Ok(Decoded(Text(x), |EncodeText(x)|))
  {
    hide DecodeAt, EncodeHead;
    assert (x + rest)[..|x|] == x;
    ItemRoundTrip(2, |x|, x + rest, depth);
    ItemRoundTrip(3, |x|, x + rest, depth);
    assert EncodeHead(2, |x|) + (x + rest) == EncodeBytes(x) + rest;
    assert EncodeHead(3, |x|) + (x + rest) == EncodeText(x) + rest;
  }

  /** Decoding an encoded head goes on with what follows it. */
  lemma ItemRoundTrip(major: nat, arg: nat, rest: seq<Byte>, depth: nat)
    requires major < 8 && arg < TWO_64 && depth <= MAX_NESTING
    ensures var body := DecodeBody(major, MinorFor(arg), arg, rest, depth);
            DecodeAt(EncodeHead(major, arg) + rest, depth)
            == if body.Err? then Err(body.error)
               else Ok(Decoded(body.value.value, |EncodeHead(major, arg)| + body.value.used))
  {
    hide Argument, EncodeHead, Major, Minor, DecodeBody;
    HeadRoundTrip(major, arg, rest);
  }

  /** Each item is a whole encoding of the value at its position. */
  predicate Encodes(items: seq<seq<Byte>>, values: seq<Value>, depth: nat) {
    && |items| == |values|
    && forall i :: 0 <= i < |items| ==> DecodeAt(items[i], depth) == Ok(Decoded(values[i], |items[i]|))
  }

  lemma {:induction false} ItemsRoundTrip(items: seq<seq<Byte>>, values: seq<Value>, rest: seq<Byte>, depth: nat)
    requires Encodes(items, values, depth)
    ensures DecodeItems(Concat(items) + rest, |items|, depth) == Ok(DecodedItems(values, |Concat(items)|))
    ensures |items| <= |Concat(items)|
  {
    hide DecodeAt;
    if items == [] {
    } else {
      var tail := Concat(items[1..]) + rest;
      assert DecodeAt(items[0], depth) == Ok(Decoded(values[0], |items[0]|));
      if depth > MAX_NESTING { DeepIsRefused(items[0], depth); }
      assert Concat(items) + rest == items[0] + tail;
      assert items[0][..|items[0]|] == (items[0] + tail)[..|items[0]|];
      SelfDelimiting(items[0], items[0] + tail, depth);
      assert (items[0] + tail)[|items[0]|..] == tail;
      ItemsRoundTrip(items[1..], values[1..], rest, depth);
      assert [values[0]] + values[1..] == values;
    }
  }

  /** An array of whole encodings decodes to the array of their values, with any
      bytes after it. */
  lemma ArrayRoundTrip(items: seq<seq<Byte>>, values: seq<Value>, rest: seq<Byte>, depth: nat)
    requires |items| <= MAX_ELEMENTS && depth <= MAX_NESTING && Encodes(items, values, depth + 1)
    ensures DecodeAt(EncodeArray(items) + rest, depth) == Ok(Decoded(Array(values), |EncodeArray(items)|))
  {
    hide DecodeAt, EncodeHead, DecodeItems, Encodes;
    var body := Concat(items) + rest;
    ItemRoundTrip(4, |items|, body, depth);
    assert EncodeHead(4, |items|) + body == EncodeArray(items) + rest;
    ItemsRoundTrip(items, values, rest, depth + 1);
  }

  /** Unsigned and negative integers written with a shortest head decode to
      themselves; the negative ones up to the int64 range. */
  lemma IntegerRoundTrip(n: nat, rest: seq<Byte>, depth: nat)
    requires n < TWO_64 && depth <= MAX_NESTING
    ensures DecodeAt(EncodeHead(0, n) + rest, depth) == Ok(Decoded(UInt(n), |EncodeHead(0, n)|))
    ensures DecodeAt(EncodeHead(1, n) + rest, depth)
            == if n <= MAX_INT64 then Ok(Decoded(NegInt(-1 - n), |EncodeHead(1, n)|)) else Err(Unsupported)
  {
    hide DecodeAt, EncodeHead;
    ItemRoundTrip(0, n, rest, depth);
    ItemRoundTrip(1, n, rest, depth);
  }

  // ---- maps, tags and simple values ---------------------------------------------------

  lemma {:induction false} PairedAt<A>(keys: seq<A>, vals: seq<A>, i: nat)
    requires |keys| == |vals| && i < 2 * |keys|
    ensures Paired(keys, vals)[i] == if i % 2 == 0 then keys[i / 2] else vals[i / 2]
  {
    if i < 2 {
    } else {
      PairedAt(keys[1..], vals[1..], i - 2);
    }
  }

  /** The head of a map, then for each entry a whole encoding of its key followed by
      one of its value, decodes to the map of those keys to those values in that
      order, repeated keys included, with any bytes after it. */
  lemma MapRoundTrip(keys: seq<seq<Byte>>, vals: seq<seq<Byte>>, ks: seq<Value>, vs: seq<Value>, rest: seq<Byte>,
                     depth: nat)
    requires |keys| == |vals| <= MAX_ELEMENTS && depth <= MAX_NESTING
    requires Encodes(keys, ks, depth + 1) && Encodes(vals, vs, depth + 1)
    ensures var b := EncodeHead(5, |keys|) + Concat(Paired(keys, vals));
            DecodeAt(b + rest, depth) == Ok(Decoded(Map(ks, vs), |b|))
  {
    hide DecodeAt, EncodeHead, DecodeItems, Evens, Odds, Paired;
    var items, values := Paired(keys, vals), Paired(ks, vs);
    var body := Concat(items) + rest;
    forall i | 0 <= i < |items| ensures DecodeAt(items[i], depth + 1) == Ok(Decoded(values[i], |items[i]|)) {
      PairedAt(keys, vals, i);
      PairedAt(ks, vs, i);
    }
    ItemRoundTrip(5, |keys|, body, depth);
    assert EncodeHead(5, |keys|) + body == EncodeHead(5, |keys|) + Concat(items) + rest;
    ItemsRoundTrip(items, values, rest, depth + 1);
    Unpaired(ks, vs);
  }

  /** The head of a tag and a whole encoding decode to the tagged value. */
  lemma TagRoundTrip(tag: nat, item: seq<Byte>, value: Value, rest: seq<Byte>, depth: nat)
    requires tag < TWO_64 && depth <= MAX_NESTING && DecodeAt(item, depth + 1) == Ok(Decoded(value, |item|))
    ensures var b := EncodeHead(6, tag) + item;
            DecodeAt(b + rest, depth) == Ok(Decoded(Tag(tag, value), |b|))
  {
    hide DecodeAt, EncodeHead;
    ItemRoundTrip(6, tag, item + rest, depth);
    assert EncodeHead(6, tag) + (item + rest) == EncodeHead(6, tag) + item + rest;
    assert item[..|item|] == (item + rest)[..|item|];
    SelfDelimiting(item, item + rest, depth + 1);
  }

  lemma SimpleItem(minor: nat, rest: seq<Byte>, depth: nat)
    requires depth <= MAX_NESTING && 20 <= minor < 24
    ensures DecodeAt([7 * 32 + minor] + rest, depth) == Ok(Decoded(Simple(minor, minor).value, 1))
  {
    hide FloatOf, BigEndian, DecodeItems, Evens, Odds, CheckCount, Major, Minor;
    FirstByte(7, minor);
  }

  /** The four simple values, each one byte. */
  lemma SimpleRoundTrip(rest: seq<Byte>, depth: nat)
    requires depth <= MAX_NESTING
    ensures DecodeAt([0xF4] + rest, depth) == Ok(Decoded(Bool(false), 1))
    ensures DecodeAt([0xF5] + rest, depth) == Ok(Decoded(Bool(true), 1))
    ensures DecodeAt([0xF6] + rest, depth) == Ok(Decoded(Null, 1))
    ensures DecodeAt([0xF7] + rest, depth) == Ok(Decoded(Undefined, 1))
  {
    hide DecodeAt;
    SimpleItem(20, rest, depth);
    SimpleItem(21, rest, depth);
    SimpleItem(22, rest, depth);
    SimpleItem(23, rest, depth);
  }

  /** A float is its two, four or eight bytes, most significant first, read as an
      IEEE 754 number of half, single or double precision. */
  lemma FloatRoundTrip(bits: nat, rest: seq<Byte>, depth: nat)
    requires depth <= MAX_NESTING
    ensures bits < TWO_16 ==>
              DecodeAt([0xF9] + ToBytes(bits, 2) + rest, depth) == Ok(Decoded(FloatValue(FloatOf(bits, 5, 10)), 3))
    ensures bits < TWO_32 ==>
              DecodeAt([0xFA] + ToBytes(bits, 4) + rest, depth) == Ok(Decoded(FloatValue(FloatOf(bits, 8, 23)), 5))
    ensures bits < TWO_64 ==>
              DecodeAt([0xFB] + ToBytes(bits, 8) + rest, depth) == Ok(Decoded(FloatValue(FloatOf(bits, 11, 52)), 9))
  {
    Powers();
    if bits < TWO_16 { FloatItem(25, 2, bits, rest, depth); }
    if bits < TWO_32 { FloatItem(26, 4, bits, rest, depth); }
    if bits < TWO_64 { FloatItem(27, 8, bits, rest, depth); }
  }

  lemma FloatItem(minor: nat, k: nat, bits: nat, rest: seq<Byte>, depth: nat)
    requires depth <= MAX_NESTING && 25 <= minor <= 27 && k == ArgumentSize(minor) - 1 && bits < Pow256(k)
    ensures var b := [7 * 32 + minor] + ToBytes(bits, k) + rest;
            DecodeAt(b, depth) == Ok(Decoded(Simple(minor, bits).value, 1 + k))
  {
    hide ToBytes, BigEndian, Pow256;
    var b := [7 * 32 + minor] + ToBytes(bits, k) + rest;
    FirstByte(7, minor);
    BytesRoundTrip(bits, k);
    assert b[1..1 + k] == ToBytes(bits, k);
  }

  /** Of the heads of major type 7 those are all: the other simple values are
      refused. Heads of 28 to 31, the indefinite lengths among them, are refused for
      every major type. */
  lemma OtherHeadsAreRefused(b: seq<Byte>, depth: nat)
    requires b != [] && depth <= MAX_NESTING
    ensures b[0] % 32 >= 28 ==> DecodeAt(b, depth) == Err(Unsupported)
    ensures 0xE0 <= b[0] < 0xF4 ==> DecodeAt(b, depth) == Err(Unsupported)
    ensures b[0] == 0xF8 && |b| >= 2 ==> DecodeAt(b, depth) == Err(Unsupported)
  {
    hide DecodeAt;
    if b[0] % 32 >= 28 { ReservedHead(b, depth); }
    if 0xE0 <= b[0] < 0xF4 || (b[0] == 0xF8 && |b| >= 2) { OtherSimple(b, depth); }
  }

  lemma ReservedHead(b: seq<Byte>, depth: nat)
    requires b != [] && depth <= MAX_NESTING && b[0] % 32 >= 28
    ensures DecodeAt(b, depth) == Err(Unsupported)
  {
    hide DecodeBody, BigEndian;
  }

  lemma OtherSimple(b: seq<Byte>, depth: nat)
    requires b != [] && depth <= MAX_NESTING && (0xE0 <= b[0] < 0xF4 || (b[0] == 0xF8 && |b| >= 2))
    ensures DecodeAt(b, depth) == Err(Unsupported)
  {
    hide FloatOf, BigEndian, DecodeItems, Evens, Odds, CheckCount;
    assert Major(b[0]) == 7;
    assert Argument(b).Ok?;
  }

  // ---- hostile input ------------------------------------------------------------------

  /** A length or a count beyond what remains is refused before anything is read, and
      so is a collection of more than 2^20 elements. */
  lemma ClaimsAreChecked(major: nat, arg: nat, rest: seq<Byte>, depth: nat)
    requires 2 <= major <= 5 && arg < TWO_64 && depth <= MAX_NESTING
    ensures major <= 3 ==>
              (DecodeAt(EncodeHead(major, arg) + rest, depth).Ok? <==> arg <= |rest|)
              && (arg > |rest| ==> DecodeAt(EncodeHead(major, arg) + rest, depth) == Err(Truncated))
    ensures major >= 4 && arg > 0x10_0000 ==> DecodeAt(EncodeHead(major, arg) + rest, depth) == Err(Unsupported)
    ensures major >= 4 && |rest| < arg <= 0x10_0000 ==>
              DecodeAt(EncodeHead(major, arg) + rest, depth) == Err(Truncated)
  {
    hide DecodeAt, EncodeHead, DecodeItems;
    ItemRoundTrip(major, arg, rest, depth);
  }

  /** A head cut short is refused: one byte of argument after 24, two after 25, four
      after 26 and eight after 27. */
  lemma CutHeadsAreRefused(b: seq<Byte>, depth: nat)
    requires depth <= MAX_NESTING
    ensures b == [] ==> DecodeAt(b, depth) == Err(Truncated)
    ensures |b| == 1 && b[0] % 32 == 24 ==> DecodeAt(b, depth) == Err(Truncated)
    ensures 1 <= |b| <= 2 && b[0] % 32 == 25 ==> DecodeAt(b, depth) == Err(Truncated)
    ensures 1 <= |b| <= 4 && b[0] % 32 == 26 ==> DecodeAt(b, depth) == Err(Truncated)
    ensures 1 <= |b| <= 8 && b[0] % 32 == 27 ==> DecodeAt(b, depth) == Err(Truncated)
  {
  }

  /** n arrays of one element inside one another, around a zero. */
  function Nested(n: nat): seq<Byte> {
    if n == 0 then [0x00] else [0x81] + Nested(n - 1)
  }

  function NestedValue(n: nat): Value {
    if n == 0 then UInt(0) else Array([NestedValue(n - 1)])
  }

  lemma {:induction false} NestingFrom(n: nat, depth: nat)
    requires depth <= 33
    ensures |Nested(n)| == n + 1
    ensures DecodeAt(Nested(n), depth)
            == if depth + n <= 32 then Ok(Decoded(NestedValue(n), n + 1)) else Err(TooDeep)
    decreases n
  {
    hide DecodeAt, EncodeHead;
    if depth == 33 {
      DeepIsRefused(Nested(n), depth);
      if n > 0 { NestingFrom(n - 1, depth); }
    } else if n == 0 {
      IntegerRoundTrip(0, [], depth);
      assert EncodeHead(0, 0) == [0x00] by { SmallHead(0, 0); }
      assert [0x00] + [] == [0x00];
    } else {
      NestingFrom(n - 1, depth + 1);
      var inner := Nested(n - 1);
      ItemRoundTrip(4, 1, inner, depth);
      assert EncodeHead(4, 1) == [0x81] by { SmallHead(4, 1); }
      OneItem(inner, depth + 1);
    }
  }

  lemma SmallHead(major: nat, arg: nat)
    requires major < 8 && arg < 24
    ensures EncodeHead(major, arg) == [major * 32 + arg]
  {
  }

  lemma OneItem(b: seq<Byte>, depth: nat)
    requires depth <= 33
    ensures DecodeItems(b, 1, depth)
            == var d := DecodeAt(b, depth);
               if d.Err? then Err(d.error) else Ok(DecodedItems([d.value.value], d.value.used))
  {
    hide DecodeAt;
    if depth == 33 { DeepIsRefused(b, depth); }
    if DecodeAt(b, depth).Ok? {
      var d := DecodeAt(b, depth).value;
      assert DecodeItems(b[d.used..], 0, depth) == Ok(DecodedItems([], 0));
      assert [d.value] + [] == [d.value];
    }
  }

  /** Nesting is bounded: exactly 32 levels are accepted. */
  lemma NestingIsBounded(n: nat)
    ensures DecodeAt(Nested(n), 0) == if n <= 32 then Ok(Decoded(NestedValue(n), n + 1)) else Err(TooDeep)
  {
    NestingFrom(n, 0);
  }

  // ---- Sig_structure ------------------------------------------------------------------

  const SIGNATURE1: seq<Byte> := [0x53, 0x69, 0x67, 0x6E, 0x61, 0x74, 0x75, 0x72, 0x65, 0x31]

  /** The bytes a COSE_Sign1 signature covers: ["Signature1", protected, "", payload]. */
  function SigStructure(headers: seq<Byte>, payload: seq<Byte>): seq<Byte>
    requires |headers| <= MAX_INT64 && |payload| <= MAX_INT64
  {
    EncodeArray([EncodeText(SIGNATURE1), EncodeBytes(headers), EncodeBytes([]), EncodeBytes(payload)])
  }

  lemma SigStructureDecodes(headers: seq<Byte>, payload: seq<Byte>)
    requires |headers| <= MAX_INT64 && |payload| <= MAX_INT64
    ensures DecodeAt(SigStructure(headers, payload), 0)
            == Ok(Decoded(Array([Text(SIGNATURE1), Bytes(headers), Bytes([]), Bytes(payload)]),
                          |SigStructure(headers, payload)|))
  {
    hide EncodeText, EncodeBytes, EncodeArray, DecodeAt;
    var items := [EncodeText(SIGNATURE1), EncodeBytes(headers), EncodeBytes([]), EncodeBytes(payload)];
    var values := [Text(SIGNATURE1), Bytes(headers), Bytes([]), Bytes(payload)];
    StringRoundTrip(SIGNATURE1, [], 1);
    StringRoundTrip(headers, [], 1);
    StringRoundTrip([], [], 1);
    StringRoundTrip(payload, [], 1);
    assert forall x: seq<Byte> :: x + [] == x;
    assert Encodes(items, values, 1);
    ArrayRoundTrip(items, values, [], 0);
  }

  /** Two different pairs of protected headers and payload never share the bytes
      that are signed. */
  lemma SigStructureIsInjective(h1: seq<Byte>, p1: seq<Byte>, h2: seq<Byte>, p2: seq<Byte>)
    requires |h1| <= MAX_INT64 && |p1| <= MAX_INT64 && |h2| <= MAX_INT64 && |p2| <= MAX_INT64
    requires SigStructure(h1, p1) == SigStructure(h2, p2)
    ensures h1 == h2 && p1 == p2
  {
    hide SigStructure, DecodeAt;
    SigStructureDecodes(h1, p1);
    SigStructureDecodes(h2, p2);
    var v1 := [Text(SIGNATURE1), Bytes(h1), Bytes([]), Bytes(p1)];
    var v2 := [Text(SIGNATURE1), Bytes(h2), Bytes([]), Bytes(p2)];
    assert v1[1] == v2[1] && v1[3] == v2[3];
  }
}
