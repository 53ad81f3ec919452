/** Integer arithmetic of internal/platform/money: int64 minor units of one
    currency, overflow-checked sums, and ratios through a wide intermediate with
    an explicit rounding mode. */
module Money {

  const MAX_INT64: int := 0x7FFF_FFFF_FFFF_FFFF
  const MIN_INT64: int := -0x8000_0000_0000_0000
  const TWO_63: int := 0x8000_0000_0000_0000
  const TWO_64: int := 0x1_0000_0000_0000_0000
  const BPS: int := 10_000

  predicate Fits(x: int) {
    MIN_INT64 <= x <= MAX_INT64
  }

  /** Two's-complement value of an int64 computation whose exact result is x. */
  function Wrap(x: int): (w: int)
    ensures Fits(w)
    ensures Fits(x) ==> w == x
    ensures (w - x) % TWO_64 == 0
  {
    (x + TWO_63) % TWO_64 - TWO_63
  }

  datatype Result<+T, +E> = Ok(value: T) | Err(error: E) {
    predicate IsFailure() { Err? }
    function PropagateFailure<U>(): Result<U, E>
      requires Err?
    {
      Err(error)
    }
    function Extract(): T
      requires Ok?
    {
      value
    }
  }

  datatype Option<+T> = None | Some(value: T)

  datatype MoneyError = Overflow | DivideByZero

  datatype Rounding = HalfUp | HalfEven | Down | Up

  function Abs(x: int): nat {
    if x < 0 then -x else x
  }

  function Add(a: int, b: int): Result<int, MoneyError> {
    if Fits(a + b) then Ok(a + b) else Err(Overflow)
  }

  function Sub(a: int, b: int): Result<int, MoneyError> {
    if b == MIN_INT64 then Err(Overflow) else Add(a, -b)
  }

  /** Whether the truncated quotient of magnitude q moves away from zero. The
      doubled remainder is an int64 product in the original, so it wraps; so does
      the magnitude of the least int64. */
  predicate Bumps(q: nat, rem: nat, den: nat, mode: Rounding) {
    match mode
    case Down => false
    case Up => rem != 0
    case HalfUp => rem != 0 && Wrap(2 * rem) >= Wrap(den)
    case HalfEven =>
      rem != 0 && (Wrap(2 * rem) > Wrap(den) || (Wrap(2 * rem) == Wrap(den) && q % 2 != 0))
  }

  /** m * num / den under a rounding mode. */
  function MulRatio(m: int, num: int, den: int, mode: Rounding): Result<int, MoneyError> {
    if den == 0 then Err(DivideByZero) else
    var product := Abs(m) * Abs(num);
    var d := Abs(den);
    var q := product / d;
    var magnitude := if Bumps(q, product % d, d, mode) then q + 1 else q;
    var signed := if ((m < 0) != (num < 0)) != (den < 0) then -magnitude else magnitude;
    if Fits(signed) then Ok(signed) else Err(Overflow)
  }

  function ApplyBasisPoints(m: int, bps: int, mode: Rounding): Result<int, MoneyError> {
    MulRatio(m, bps, BPS, mode)
  }

  /** r is the half-up rounding of p / d: the unique integer in (p/d - 1/2, p/d + 1/2]. */
  predicate IsHalfUp(r: int, p: int, d: int) {
    -d < 2 * (d * r) - 2 * p <= d
  }

  /** Products grow with their factors; kept apart so that no other proof
      multiplies two unknowns. */
  lemma MulMono(a: int, b: int, c: int)
    requires a <= b && c >= 0
    ensures a * c <= b * c && c * a <= c * b
  {
  }

  lemma MulStep(d: int, q: int)
    ensures d * (q + 1) == d * q + d
  {
  }

  lemma DivisionFacts(p: nat, d: nat)
    requires d > 0
    ensures p == d * (p / d) + p % d
    ensures 0 <= p % d < d
    ensures p / d >= 0
  {
  }

  /** A quotient cannot exceed m when the dividend is at most d * m, nor fall
      below it when the dividend is at least d * m. */
  lemma QuotientBound(p: nat, d: nat, m: nat)
    requires d > 0
    ensures p <= d * m ==> p / d <= m && (p / d == m ==> p % d == 0)
    ensures p >= d * m ==> p / d >= m
  {
    DivisionFacts(p, d);
    var q := p / d;
    if q > m {
      MulMono(m + 1, q, d);
      MulStep(d, m);
    } else if q < m {
      MulMono(q + 1, m, d);
      MulStep(d, q);
    }
  }

  /** The sign of the exact ratio, or none. */
  predicate SignIs(r: int, m: int, num: int, den: int) {
    && (r < 0 ==> ((m < 0) != (num < 0)) != (den < 0))
    && (r > 0 ==> ((m < 0) != (num < 0)) == (den < 0))
  }

  /** Half-up rounding of m * num / den for any signs: half a unit moves away from
      zero, and the sign is that of the exact ratio. */
  predicate IsNearest(r: int, m: int, num: int, den: int) {
    IsHalfUp(Abs(r), Abs(m) * Abs(num), Abs(den)) && SignIs(r, m, num, den)
  }

  lemma HalfUpMagnitude(p: nat, d: nat)
    requires 0 < d <= TWO_63
    ensures var rem := p % d;
            IsHalfUp(if Bumps(p / d, rem, d, HalfUp) then p / d + 1 else p / d, p, d)
            <==> if d == TWO_63 then rem == 0 || 2 * rem > MAX_INT64 else 2 * rem <= MAX_INT64
  {
    DivisionFacts(p, d);
    var q, rem := p / d, p % d;
    MulStep(d, q);
    if 2 * rem > MAX_INT64 {
      assert Wrap(2 * rem) == 2 * rem - TWO_64;
    }
  }

  /** The half-up branch returns the mathematical rounding exactly when doubling
      the remainder stays inside int64; a remainder that large needs a divisor above
      2^62. For the least divisor it is the other way round: there every remainder
      moves the quotient, as only those should whose double leaves int64. */
  lemma {:induction false} HalfUpIsNearestIff(m: int, num: int, den: int)
    requires den != 0 && Fits(den)
    ensures var r := MulRatio(m, num, den, HalfUp);
            var rem := (Abs(m) * Abs(num)) % Abs(den);
            r.Ok? ==> (IsNearest(r.value, m, num, den)
                       <==> if den == MIN_INT64 then rem == 0 || 2 * rem > MAX_INT64 else 2 * rem <= MAX_INT64)
  {
    AbsFacts(den);
    hide Abs, Bumps, IsHalfUp;
    var p, d := Abs(m) * Abs(num), Abs(den);
    HalfUpMagnitude(p, d);
    DivisionFacts(p, d);
    var q := p / d;
    AbsOfSigned(if Bumps(q, p % d, d, HalfUp) then q + 1 else q);
  }

  lemma AbsFacts(x: int)
    ensures Abs(x) == 0 <==> x == 0
    ensures Fits(x) ==> Abs(x) <= TWO_63 && (Abs(x) == TWO_63 <==> x == MIN_INT64)
  {
  }

  lemma AbsOfSigned(x: int)
    requires x >= 0
    ensures Abs(x) == x && Abs(-x) == x
  {
  }

  /** Rounding down drops what is left over, for any signs; rounding up moves away
      from zero whenever anything is. */
  lemma {:induction false} DownAndUp(m: int, num: int, den: int)
    requires den != 0
    ensures var p, d := Abs(m) * Abs(num), Abs(den);
            var down, up := MulRatio(m, num, den, Down), MulRatio(m, num, den, Up);
            && (down.Ok? ==> d * Abs(down.value) <= p < d * (Abs(down.value) + 1) && SignIs(down.value, m, num, den))
            && (up.Ok? ==> d * (Abs(up.value) - 1) < p <= d * Abs(up.value) && SignIs(up.value, m, num, den))
  {
    AbsFacts(den);
    hide Abs;
    var p, d := Abs(m) * Abs(num), Abs(den);
    DivisionFacts(p, d);
    MulStep(d, p / d);
    MulStep(d, p / d - 1);
    AbsOfSigned(p / d);
    AbsOfSigned(p / d + 1);
  }

  /** r is the nearest integer to p / d, and the even one of two. */
  predicate IsHalfEven(r: int, p: int, d: int) {
    -d <= 2 * (d * r) - 2 * p <= d && (2 * (d * r) - 2 * p == d || 2 * (d * r) - 2 * p == -d ==> r % 2 == 0)
  }

  lemma HalfEvenMagnitude(p: nat, d: nat)
    requires 0 < d <= TWO_63
    ensures var rem := p % d;
            IsHalfEven(if Bumps(p / d, rem, d, HalfEven) then p / d + 1 else p / d, p, d)
            <==> if d == TWO_63 then rem == 0 || 2 * rem > MAX_INT64 else 2 * rem <= MAX_INT64
  {
    DivisionFacts(p, d);
    var q, rem := p / d, p % d;
    MulStep(d, q);
    if 2 * rem > MAX_INT64 {
      assert Wrap(2 * rem) == 2 * rem - TWO_64;
    }
  }

  /** Half-even rounding is exact under the very condition that half-up is. */
  lemma {:induction false} HalfEvenIsNearestIff(m: int, num: int, den: int)
    requires den != 0 && Fits(den)
    ensures var r := MulRatio(m, num, den, HalfEven);
            var p, d := Abs(m) * Abs(num), Abs(den);
            r.Ok? ==> SignIs(r.value, m, num, den)
                      && (IsHalfEven(Abs(r.value), p, d)
                          <==> if den == MIN_INT64 then p % d == 0 || 2 * (p % d) > MAX_INT64
                               else 2 * (p % d) <= MAX_INT64)
  {
    AbsFacts(den);
    hide Abs, Bumps, IsHalfEven;
    var p, d := Abs(m) * Abs(num), Abs(den);
    HalfEvenMagnitude(p, d);
    DivisionFacts(p, d);
    var q := p / d;
    AbsOfSigned(if Bumps(q, p % d, d, HalfEven) then q + 1 else q);
  }

  /** A concrete amount on which the wrapped doubling rounds the wrong way:
      (2^62 + 1) / (2^62 + 2) is rounded to 0. */
  lemma HalfUpCanRoundDown()
    ensures MulRatio(0x4000_0000_0000_0001, 1, 0x4000_0000_0000_0002, HalfUp) == Ok(0)
    ensures !IsHalfUp(0, 0x4000_0000_0000_0001, 0x4000_0000_0000_0002)
  {
    var p, d: int := 0x4000_0000_0000_0001, 0x4000_0000_0000_0002;
    assert !Bumps(0, p, d, HalfUp) by { assert Wrap(2 * p) == 2 * p - TWO_64; }
    hide Bumps;
    assert Abs(p) * Abs(1) == p && p / d == 0 && p % d == p;
  }

  /** Half-up rounding as used by every fee, tax and refund share: exact to half
      a unit, never negative, never above the amount when the ratio is at most one. */
  lemma {:induction false} HalfUpRatio(m: nat, num: nat, den: nat)
    requires 0 < den <= TWO_63 / 2
    ensures var r := MulRatio(m, num, den, HalfUp);
            && (r.Ok? ==> r.value >= 0 && IsHalfUp(r.value, m * num, den))
            && (num <= den && m <= MAX_INT64 ==> r.Ok? && r.value <= m)
  {
    HalfUpIsNearestIff(m, num, den);
    assert Abs(m) * Abs(num) == m * num;
    DivisionFacts(m * num, den);
    if num <= den {
      MulMono(num, den, m);
      QuotientBound(m * num, den, m);
    }
  }

  /** Rounding down never exceeds the exact share and is within one unit of it. */
  lemma {:induction false} DownRatio(m: nat, num: nat, den: nat)
    requires 0 < den
    ensures var r := MulRatio(m, num, den, Down);
            && (r.Ok? ==> r.value >= 0 && den * r.value <= m * num < den * r.value + den)
            && (num <= den && m <= MAX_INT64 ==> r.Ok? && r.value <= m)
            && (num >= den && r.Ok? ==> r.value >= m)
  {
    DivisionFacts(m * num, den);
    QuotientBound(m * num, den, m);
    if num <= den {
      MulMono(num, den, m);
    } else {
      MulMono(den, num, m);
    }
  }

  /** The interval (p/d - 1/2, p/d + 1/2] holds one integer. */
  lemma HalfUpUnique(r: int, s: int, p: int, d: int)
    requires d > 0 && IsHalfUp(r, p, d) && IsHalfUp(s, p, d)
    ensures r == s
  {
    if r > s {
      MulMono(s + 1, r, d);
      MulStep(d, s);
      MulStep(d, r);
    } else if s > r {
      MulMono(r + 1, s, d);
      MulStep(d, r);
      MulStep(d, s);
    }
  }

  /** Rates are applied half up: half a unit is added and the rest dropped. */
  lemma HalfUpIsFloor(m: nat, bps: nat)
    ensures var r := ApplyBasisPoints(m, bps, HalfUp);
            && (r.Ok? ==> r.value == (m * bps + BPS / 2) / BPS)
            && (r.Ok? <==> (m * bps + BPS / 2) / BPS <= MAX_INT64)
  {
    var p := m * bps;
    var r := (p + BPS / 2) / BPS;
    DivisionFacts(p, BPS);
    assert Abs(m) * Abs(bps) == p;
    hide Abs;
    assert r == if 2 * (p % BPS) >= BPS then p / BPS + 1 else p / BPS;
  }

  // ---- refusals --------------------------------------------------------------

  /** What cannot be computed: a ratio to nothing, and a result outside 64 bits, the
      negated least integer among them. */
  lemma RatioIsRefused(m: int, num: int, den: int, mode: Rounding)
    ensures den == 0 ==> MulRatio(m, num, den, mode) == Err(DivideByZero)
    ensures den != 0 ==>
              var r := MulRatio(m, num, den, mode);
              var q := Abs(m) * Abs(num) / Abs(den);
              var most := if ((m < 0) != (num < 0)) != (den < 0) then MAX_INT64 + 1 else MAX_INT64;
              && (q > most ==> r == Err(Overflow)) && (q < most ==> r.Ok?)
              && (mode == Down && q == most ==> r.Ok?) && (q == most && r.Err? ==> r == Err(Overflow))
  {
    hide Abs, Bumps, Wrap;
    if den != 0 {
      assert Abs(den) > 0 by { NotZero(den); }
      var p, d := Abs(m) * Abs(num), Abs(den);
      DownNeverMoves(p / d, p % d, d);
    }
  }

  lemma NotZero(x: int)
    requires x != 0
    ensures Abs(x) > 0
  {
  }

  lemma DownNeverMoves(q: nat, rem: nat, den: nat)
    ensures !Bumps(q, rem, den, Down)
  {
  }

  lemma SumsAre(a: int, b: int)
    ensures Add(a, b) == if MIN_INT64 <= a + b <= MAX_INT64 then Ok(a + b) else Err(Overflow)
    ensures Sub(a, b)
            == if b != MIN_INT64 && MIN_INT64 <= a - b <= MAX_INT64 then Ok(a - b) else Err(Overflow)
  {
  }
}
