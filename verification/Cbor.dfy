/** The CBOR subset of internal/modules/provenance (RFC 8949 sections 3 and 4.2.1):
    values, errors and the depth-bounded decoder over untrusted bytes. */
module Cbor {
  import opened Money

  type Byte = x: int | 0 <= x < 256

  const MAX_NESTING: nat := 32
  const MAX_ELEMENTS: nat := 0x10_0000
  const TWO_16: int := 0x1_0000
  const TWO_32: int := 0x1_0000_0000

  /** A decoded floating-point number: exact, infinite, or not a number. */
  datatype Float = Finite(r: real) | Infinite(negative: bool) | NaN

  datatype Value =
    | UInt(uint: nat)
    | NegInt(neg: int)
    | Bytes(bytes: seq<Byte>)
    | Text(text: seq<Byte>)
    | Array(items: seq<Value>)
    | Map(keys: seq<Value>, vals: seq<Value>)
    | Tag(tag: nat, tagged: Value)
    | Bool(b: bool)
    | Null
    | Undefined
    | FloatValue(f: Float)

  datatype Error = Truncated | TooDeep | Unsupported

  datatype Decoded = Decoded(value: Value, used: nat)

  // ---- heads -----------------------------------------------------------------------

  function BigEndian(b: seq<Byte>): nat {
    if b == [] then 0 else 256 * BigEndian(b[..|b| - 1]) + b[|b| - 1]
  }

  datatype Head = Head(arg: nat, size: nat)

  /** decodeArgument: the argument and the length of the head. */
  function Argument(b: seq<Byte>): (r: Result<Head, Error>)
    requires b != []
    ensures r.Ok? ==> 1 <= r.value.size <= |b|
  {
    var minor := Minor(b[0]);
    if minor < 24 then Ok(Head(minor, 1))
    else if minor > 27 then Err(Unsupported)
    else
      var size := ArgumentSize(minor);
      if |b| < size then Err(Truncated) else Ok(Head(BigEndian(b[1..size]), size))
  }

  function ArgumentSize(minor: nat): nat
    requires 24 <= minor <= 27
  {
    if minor == 24 then 2 else if minor == 25 then 3 else if minor == 26 then 5 else 9
  }

  /** checkCount: a collection cannot have more elements than bytes that remain. */
  function CheckCount(count: nat, remaining: nat): Result<(), Error> {
    if count > MAX_ELEMENTS then Err(Unsupported)
    else if count > remaining then Err(Truncated)
    else Ok(())
  }

  // ---- floats ----------------------------------------------------------------------

  function Pow2(e: int): real
    decreases if e < 0 then -e else e
  {
    if e == 0 then 1.0 else if e > 0 then 2.0 * Pow2(e - 1) else Pow2(e + 1) / 2.0
  }

  /** An IEEE 754 number of the given exponent and mantissa widths, by value. Half
      and single precision widen to double exactly. */
  function FloatOf(bits: nat, expBits: nat, mantBits: nat): Float {
    var scale := Size2(mantBits);
    var mant := bits % scale;
    var exp := (bits / scale) % Size2(expBits);
    var negative := bits / scale / Size2(expBits) % 2 == 1;
    var bias := Size2(expBits) / 2 - 1;
    if exp == Size2(expBits) - 1 then (if mant == 0 then Infinite(negative) else NaN)
    else
      var magnitude := if exp == 0 then mant as real * Pow2(1 - bias - mantBits)
                       else (scale + mant) as real * Pow2(exp - bias - mantBits);
      Finite(if negative then -magnitude else magnitude)
  }

  function Size2(n: nat): (r: nat)
    ensures r > 0
  {
    if n == 0 then 1 else 2 * Size2(n - 1)
  }

  /** Major type 7: the simple values and floats that are supported. */
  function Simple(minor: nat, arg: nat): Result<Value, Error> {
    if minor == 20 then Ok(Bool(false))
    else if minor == 21 then Ok(Bool(true))
    else if minor == 22 then Ok(Null)
    else if minor == 23 then Ok(Undefined)
    else if minor == 25 then Ok(FloatValue(FloatOf(arg, 5, 10)))
    else if minor == 26 then Ok(FloatValue(FloatOf(arg, 8, 23)))
    else if minor == 27 then Ok(FloatValue(FloatOf(arg, 11, 52)))
    else Err(Unsupported)
  }

  // ---- items -----------------------------------------------------------------------

  datatype DecodedItems = DecodedItems(items: seq<Value>, used: nat)

  function Evens(xs: seq<Value>): seq<Value> {
    if |xs| < 2 then [] else [xs[0]] + Evens(xs[2..])
  }

  function Odds(xs: seq<Value>): seq<Value> {
    if |xs| < 2 then [] else [xs[1]] + Odds(xs[2..])
  }

  function Major(first: Byte): (m: nat)
    ensures m < 8
  {
    first / 32
  }

  function Minor(first: Byte): (m: nat)
    ensures m < 32
  {
    first % 32
  }

  /** decodeCBORAt. Termination needs no fuel: every nested item is one level
      deeper, and the depth is bounded. */
  function DecodeAt(b: seq<Byte>, depth: nat): (r: Result<Decoded, Error>)
    decreases MAX_NESTING + 2 - depth, 1
    ensures r.Ok? ==> 1 <= r.value.used <= |b|
  {
    if depth > MAX_NESTING then Err(TooDeep)
    else if b == [] then Err(Truncated)
    else
      var h :- Argument(b);
      var d :- DecodeBody(Major(b[0]), Minor(b[0]), h.arg, b[h.size..], depth);
      Ok(Decoded(d.value, h.size + d.used))
  }

  /** What follows a head, with the bytes consumed after it. */
  function DecodeBody(major: nat, minor: nat, arg: nat, rest: seq<Byte>, depth: nat): (r: Result<Decoded, Error>)
    requires major < 8 && depth <= MAX_NESTING
    decreases MAX_NESTING + 2 - depth, 0
    ensures r.Ok? ==> r.value.used <= |rest|
  {
    match major
    case 0 => Ok(Decoded(UInt(arg), 0))
    case 1 => if arg > MAX_INT64 then Err(Unsupported) else Ok(Decoded(NegInt(-1 - arg), 0))
    case 2 => if arg > |rest| then Err(Truncated) else Ok(Decoded(Bytes(rest[..arg]), arg))
    case 3 => if arg > |rest| then Err(Truncated) else Ok(Decoded(Text(rest[..arg]), arg))
    case 4 =>
      var _ :- CheckCount(arg, |rest|);
      var d :- DecodeItems(rest, arg, depth + 1);
      Ok(Decoded(Array(d.items), d.used))
    case 5 =>
      var _ :- CheckCount(arg, |rest|);
      var d :- DecodeItems(rest, 2 * arg, depth + 1);
      Ok(Decoded(Map(Evens(d.items), Odds(d.items)), d.used))
    case 6 =>
      var d :- DecodeAt(rest, depth + 1);
      Ok(Decoded(Tag(arg, d.value), d.used))
    case _ =>
      var v :- Simple(minor, arg);
      Ok(Decoded(v, 0))
  }

  /** `count` items, one after the other. */
  function DecodeItems(b: seq<Byte>, count: nat, depth: nat): (r: Result<DecodedItems, Error>)
    decreases MAX_NESTING + 2 - depth, count + 2
    ensures r.Ok? ==> |r.value.items| == count && count <= r.value.used <= |b|
  {
    if count == 0 then Ok(DecodedItems([], 0)) else
    if depth > MAX_NESTING then Err(TooDeep) else
    var first :- DecodeAt(b, depth);
    var rest :- DecodeItems(b[first.used..], count - 1, depth);
    Ok(DecodedItems([first.value] + rest.items, first.used + rest.used))
  }
}
