/** Square-and-multiply and decimal rounding (src/util.c). */
module PowInt {

  const INT64_MAX: int := 0x7fff_ffff_ffff_ffff
  const INT64_MIN: int := -0x8000_0000_0000_0000

  /** The largest integer whose square is an int64. */
  const SQRT_INT64_MAX: int := 3037000499

  predicate InRange(v: int) { INT64_MIN <= v <= INT64_MAX }

  function Pow(x: int, n: nat): int {
    if n == 0 then 1 else x * Pow(x, n - 1)
  }

  /** How a call of `pow_i64` ends: with a result, with the 0 of the overflow guard, or with a signed
      overflow, which C leaves undefined. */
  datatype Outcome = Value(v: int) | GuardZero | Overflow

  /** The squaring loop. */
  function Squaring(x: int, y: nat, res: int): Outcome
    decreases y
  {
    if y == 0 then Value(res)
    else if x > SQRT_INT64_MAX then GuardZero
    else if !InRange(x * x) then Overflow
    else if y % 2 == 0 then Squaring(x * x, y / 2, res)
    else if !InRange(res * (x * x)) then Overflow
    else Squaring(x * x, y / 2, res * (x * x))
  }

  function PowI64(x: int, y: nat): Outcome {
    if x == 1 || y == 0 then Value(1)
    else if x == 0 then Value(0)
    else Squaring(x, y / 2, if y % 2 == 1 then x else 1)
  }

  /** `pow_i64`; every product is checked against int64. */
  method PowInt64(x0: int, y0: nat) returns (o: Outcome)
    requires InRange(x0) && y0 < 256
    ensures o == PowI64(x0, y0)
    ensures o.Value? <==> InRange(Pow(x0, y0))
    ensures o.Value? ==> o.v == Pow(x0, y0)
  {
    PowExact(x0, y0);
    var x, y := x0, y0;
    if x == 1 || y == 0 {
      return Value(1);
    }
    if x == 0 {
      return Value(0);
    }
    var res := if y % 2 == 1 then x else 1;
    y := y / 2;
    while y != 0
      invariant Squaring(x, y, res) == PowI64(x0, y0)
      decreases y
    {
      if x > SQRT_INT64_MAX {
        return GuardZero;
      }
      if !InRange(x * x) {
        return Overflow;
      }
      x := x * x;
      if y % 2 == 1 {
        if !InRange(res * x) {
          return Overflow;
        }
        res := res * x;
      }
      y := y / 2;
    }
    return Value(res);
  }

  // --------------------------------------------------------------------------------------------
  // Powers

  lemma {:induction false} PowSquare(x: int, n: nat)
    ensures Pow(x, 2 * n) == Pow(x * x, n)
  {
    if n > 0 {
      PowSquare(x, n - 1);
      assert Pow(x, 2 * n) == x * (x * Pow(x, 2 * n - 2));
    }
  }

  lemma PowHalf(x: int, y: nat)
    ensures Pow(x, y) == (if y % 2 == 1 then x else 1) * Pow(x * x, y / 2)
  {
    PowSquare(x, y / 2);
    if y % 2 == 1 { assert y == 2 * (y / 2) + 1; } else { assert y == 2 * (y / 2); }
  }

  lemma {:induction false} PowAtLeast(x: int, n: nat)
    requires x >= 1
    ensures Pow(x, n) >= 1 && (n >= 1 ==> Pow(x, n) >= x)
  {
    if n > 0 {
      PowAtLeast(x, n - 1);
      ProductAtLeast(x, Pow(x, n - 1));
    }
  }

  lemma ProductAtLeast(a: int, b: int)
    requires a >= 0 && b >= 1
    ensures a * b >= a
  {
    assert a * b == a * (b - 1) + a;
  }

  lemma SquarePositive(x: int)
    requires x != 0
    ensures x * x >= 1
  {
  }

  /** A square that the guard or int64 refuses is beyond 2^63. */
  lemma BigSquare(x: int)
    requires x > SQRT_INT64_MAX || !InRange(x * x)
    ensures x * x > -INT64_MIN
  {
    var m := if x < 0 then -x else x;
    assert m * m == x * x;
    if m <= SQRT_INT64_MAX {
      SquareBound(m);
      assert false;
    } else {
      ProductAtLeast(m, m - SQRT_INT64_MAX);
      SquareOver(m);
    }
  }

  lemma SquareBound(m: int)
    requires 0 <= m <= SQRT_INT64_MAX
    ensures m * m <= INT64_MAX
  {
    var d := SQRT_INT64_MAX - m;
    assert m * d >= 0;
    assert SQRT_INT64_MAX * m == m * m + m * d;
  }

  lemma SquareOver(m: int)
    requires m > SQRT_INT64_MAX
    ensures m * m > -INT64_MIN
  {
    assert m * m >= (SQRT_INT64_MAX + 1) * m >= (SQRT_INT64_MAX + 1) * (SQRT_INT64_MAX + 1);
  }

  /** Growing an integer outside int64 does not bring it back. */
  lemma StaysOut(a: int, p: int)
    requires !InRange(a) && p >= 1
    ensures !InRange(a * p)
  {
    if a > 0 { ProductAtLeast(a, p); } else { ProductAtLeast(-a, p); assert (-a) * p == -(a * p); }
  }

  lemma NonZeroTimesBig(r: int, p: int)
    requires r != 0 && p > -INT64_MIN
    ensures !InRange(r * p)
  {
    if r > 0 { ProductAtLeast(p, r); } else { ProductAtLeast(p, -r); assert p * -r == -(r * p); }
  }

  lemma ProductNonZero(r: int, s: int)
    requires r != 0 && s != 0
    ensures r * s != 0
  {
  }

  lemma Regroup(r: int, s: int, p: int)
    ensures r * (s * p) == (r * s) * p
  {
  }

  lemma SquaringStops(x: int, y: nat, res: int)
    requires x != 0 && res != 0 && y >= 1 && (x > SQRT_INT64_MAX || !InRange(x * x))
    ensures !InRange(res * Pow(x * x, y))
  {
    BigSquare(x);
    PowAtLeast(x * x, y);
    NonZeroTimesBig(res, Pow(x * x, y));
  }

  /** The loop computes res * (x*x)^y exactly when that number is an int64; intermediate results never
      overflow before the final one does. */
  lemma {:induction false} SquaringExact(x: int, y: nat, res: int)
    requires x != 0 && res != 0 && InRange(res)
    ensures Squaring(x, y, res).Value? <==> InRange(res * Pow(x * x, y))
    ensures Squaring(x, y, res).Value? ==> Squaring(x, y, res).v == res * Pow(x * x, y)
    decreases y
  {
    if y == 0 {
    } else if x > SQRT_INT64_MAX || !InRange(x * x) {
      SquaringStops(x, y, res);
    } else {
      var s := x * x;
      SquarePositive(x);
      SquarePositive(s);
      PowHalf(s, y);
      PowAtLeast(s * s, y / 2);
      var p := Pow(s * s, y / 2);
      if y % 2 == 0 {
        SquaringExact(s, y / 2, res);
      } else {
        Regroup(res, s, p);
        ProductNonZero(res, s);
        if InRange(res * s) { SquaringExact(s, y / 2, res * s); } else { StaysOut(res * s, p); }
      }
    }
  }

  lemma {:induction false} PowOfOneOrZero(x: int, n: nat)
    requires x == 1 || x == 0
    ensures Pow(x, n) == (if x == 1 || n == 0 then 1 else 0)
  {
    if n > 0 { PowOfOneOrZero(x, n - 1); }
  }

  /** `pow_i64` returns x^y exactly when x^y is an int64, -2^63 included; otherwise, and only then, it
      ends in the guard's 0 or in a signed overflow. */
  lemma PowExact(x: int, y: nat)
    requires InRange(x)
    ensures PowI64(x, y).Value? <==> InRange(Pow(x, y))
    ensures PowI64(x, y).Value? ==> PowI64(x, y).v == Pow(x, y)
  {
    if x == 1 || x == 0 {
      PowOfOneOrZero(x, y);
    } else if y > 0 {
      PowHalf(x, y);
      SquaringExact(x, y / 2, if y % 2 == 1 then x else 1);
    }
  }

  // --------------------------------------------------------------------------------------------
  // Guard or overflow

  /** The largest power of two M for which x^M is an int64. */
  function Reach(x: int): (m: nat)
    requires x <= -2 || x >= 2
    ensures m >= 1
    decreases INT64_MAX - (if x < 0 then -x else x)
  {
    SquareGrows(x);
    if InRange(x * x) then 2 * Reach(x * x) else 1
  }

  lemma SquareGrows(x: int)
    requires x <= -2 || x >= 2
    ensures x * x >= 4 && x * x > x && x * x > -x
  {
    var m := if x < 0 then -x else x;
    assert x * x == m * m;
    ProductAtLeast(m, m - 1);
    assert m * m == m * (m - 1) + m;
  }

  predicate PowerOfTwo(m: nat) {
    m == 1 || (m > 0 && m % 2 == 0 && PowerOfTwo(m / 2))
  }

  lemma DoublePower(m: nat)
    requires PowerOfTwo(m)
    ensures PowerOfTwo(2 * m)
  {
    assert (2 * m) % 2 == 0 && (2 * m) / 2 == m;
  }

  /** `Reach` is a power of two and x^M is an int64. */
  lemma {:induction false} ReachInRange(x: int)
    requires (x <= -2 || x >= 2) && InRange(x)
    ensures PowerOfTwo(Reach(x)) && InRange(Pow(x, Reach(x)))
    decreases INT64_MAX - (if x < 0 then -x else x)
  {
    SquareGrows(x);
    if InRange(x * x) {
      ReachInRange(x * x);
      PowSquare(x, Reach(x * x));
      DoublePower(Reach(x * x));
    } else {
      assert Pow(x, 1) == x * Pow(x, 0);
    }
  }

  /** No power from 2M on is an int64. */
  lemma {:induction false} BeyondReach(x: int, n: nat)
    requires (x <= -2 || x >= 2) && InRange(x)
    ensures n >= 2 * Reach(x) ==> !InRange(Pow(x, n))
    decreases INT64_MAX - (if x < 0 then -x else x)
  {
    SquareGrows(x);
    PowHalf(x, n);
    if InRange(x * x) {
      BeyondReach(x * x, n / 2);
      PowAtLeast(x * x, n / 2);
      if n >= 2 * Reach(x) { OddFactorStaysOut(x, Pow(x * x, n / 2)); }
    } else if n >= 2 {
      SquaringStops(x, n / 2, if n % 2 == 1 then x else 1);
    }
  }

  lemma OddFactorStaysOut(x: int, p: int)
    requires (x <= -2 || x >= 2) && p > INT64_MAX
    ensures !InRange(x * p)
  {
    var m := if x < 0 then -x else x;
    ProductAtLeast(p, m - 1);
    assert m * p == p * (m - 1) + p;
    assert x < 0 ==> x * p == -(m * p);
  }

  /** Whether a product or a square overflows before the guard is reached. */
  predicate Overflows(x: int, y: nat)
    requires x <= -2 || x >= 2
  {
    if x < 0 && Reach(x) == 1 then y >= 2 else !InRange(Pow(x, y % (2 * Reach(x))))
  }

  lemma HalfRemainder(y: nat, m: nat)
    requires m > 0
    ensures (y % (2 * m)) / 2 == (y / 2) % m && (y % (2 * m)) % 2 == y % 2
  {
    var q, r := (y / 2) / m, (y / 2) % m;
    assert y / 2 == m * q + r;
    assert y == 2 * m * q + (2 * r + y % 2);
    RemainderIs(y, 2 * m, q, 2 * r + y % 2);
  }

  lemma RemainderIs(y: nat, m: nat, q: nat, r: nat)
    requires m > 0 && y == m * q + r && r < m
    ensures y % m == r
  {
    var d := q - y / m;
    assert m * d == y % m - r;
    if d >= 1 { ProductAtLeast(m, d); } else if d <= -1 { ProductAtLeast(m, -d); }
  }

  /** The power that matters, split into the factor already in `res` and the squares. */
  lemma SplitRemainder(s: int, y: nat, m: nat)
    requires m > 0
    ensures Pow(s, y % (2 * m)) == (if y % 2 == 1 then s else 1) * Pow(s * s, (y / 2) % m)
  {
    PowHalf(s, y % (2 * m));
    HalfRemainder(y, m);
  }

  lemma FactorsSplit(s: int, y: nat, m: nat, res: int)
    requires m > 0
    ensures res * Pow(s, y % (2 * m)) == (if y % 2 == 1 then res * s else res) * Pow(s * s, (y / 2) % m)
  {
    SplitRemainder(s, y, m);
    Regroup(res, s, Pow(s * s, (y / 2) % m));
  }

  /** The same for the loop, which still has the factors of `y` to take. */
  predicate LoopOverflows(x: int, y: nat, res: int)
    requires x <= -2 || x >= 2
  {
    if x < 0 && Reach(x) == 1 then y >= 1 else !InRange(res * Pow(x * x, y % Reach(x)))
  }

  lemma LoopOverflowsLast(x: int, y: nat, res: int)
    requires (x <= -2 || x >= 2) && InRange(res)
    ensures y == 0 || !InRange(x * x) ==> (LoopOverflows(x, y, res) <==> x < 0 && y >= 1 && !InRange(x * x))
  {
    if y == 0 { RemainderIs(0, Reach(x), 0, 0); } else if !InRange(x * x) { RemainderIs(y, 1, y, 0); }
  }

  lemma LoopOverflowsNext(x: int, y: nat, res: int, next: int)
    requires (x <= -2 || x >= 2) && InRange(x * x) && x * x >= 4
    requires next == if y % 2 == 1 then res * (x * x) else res
    ensures LoopOverflows(x, y, res) <==> !InRange(next) || LoopOverflows(x * x, y / 2, next)
  {
    var s := x * x;
    FactorsSplit(s, y, Reach(s), res);
    SquaringTail(s, y / 2, next);
  }

  /** A factor already out of range keeps the power out of range. */
  lemma SquaringTail(s: int, k: nat, next: int)
    requires s >= 4
    ensures !InRange(next) ==> !InRange(next * Pow(s * s, k % Reach(s)))
  {
    PowAtLeast(s * s, k % Reach(s));
    if !InRange(next) { StaysOut(next, Pow(s * s, k % Reach(s))); }
  }

  lemma SquaringEnds(x: int, y: nat, res: int)
    requires (x <= -2 || x >= 2) && InRange(x)
    ensures y == 0 || !InRange(x * x) ==> (Squaring(x, y, res).Overflow? <==> x < 0 && y >= 1 && !InRange(x * x))
  {
    if x > SQRT_INT64_MAX { SquareOver(x); } else if x >= 2 { SquareBound(x); }
  }

  lemma SquaringGoesOn(x: int, y: nat, res: int, s: int, next: int)
    requires y >= 1 && s == x * x && InRange(s) && next == if y % 2 == 1 then res * s else res
    requires InRange(res)
    ensures Squaring(x, y, res).Overflow? <==> !InRange(next) || Squaring(s, y / 2, next).Overflow?
  {
    if x > SQRT_INT64_MAX { SquareOver(x); }
  }

  lemma {:induction false} SquaringOverflowsIff(x: int, y: nat, res: int)
    requires (x <= -2 || x >= 2) && InRange(x) && res != 0 && InRange(res)
    ensures Squaring(x, y, res).Overflow? <==> LoopOverflows(x, y, res)
    decreases y
  {
    SquareGrows(x);
    if y == 0 || !InRange(x * x) {
      LoopOverflowsLast(x, y, res);
      SquaringEnds(x, y, res);
    } else {
      var next := if y % 2 == 1 then res * (x * x) else res;
      LoopOverflowsNext(x, y, res, next);
      SquaringGoesOn(x, y, res, x * x, next);
      if InRange(next) {
        ProductNonZero(res, x * x);
        SquaringOverflowsIff(x * x, y / 2, next);
      }
    }
  }

  /** How a power that is no int64 ends, for every base and exponent: in an undefined overflow exactly when
      the part of the exponent below twice the reach is too large already, or when a negative base is
      squared out of range at once; otherwise in the guard's 0. */
  lemma OverflowIff(x: int, y: nat)
    requires (x <= -2 || x >= 2) && InRange(x)
    ensures PowI64(x, y).Overflow? <==> Overflows(x, y)
    ensures PowI64(x, y).GuardZero? <==> !InRange(Pow(x, y)) && !Overflows(x, y)
  {
    PowExact(x, y);
    var m := Reach(x);
    if y > 0 {
      SquaringOverflowsIff(x, y / 2, if y % 2 == 1 then x else 1);
      SplitRemainder(x, y, m);
    } else {
      assert 0 % (2 * m) == 0;
    }
  }

  /** One input for each way to overflow, and a negative base that the guard does catch. */
  lemma GuardIsIncomplete()
    ensures PowI64(-3037000500, 2) == Overflow
    ensures PowI64(3, 40) == Overflow
    ensures PowI64(-10, 40) == GuardZero
  {
    assert Squaring(3, 20, 1) == Squaring(9, 10, 1) == Squaring(81, 5, 1) == Squaring(6561, 2, 6561)
      == Squaring(43046721, 1, 6561);
    assert Squaring(-10, 20, 1) == Squaring(100, 10, 1) == Squaring(10000, 5, 1) ==
      Squaring(100000000, 2, 100000000) == Squaring(10000000000000000, 1, 100000000);
  }

  // --------------------------------------------------------------------------------------------
  // round_decimal, over real numbers

  /** C's `round`: to the nearest integer, halves away from zero. */
  function Round(v: real): int {
    if v >= 0.0 then (v + 0.5).Floor else -((-v + 0.5).Floor)
  }

  datatype Rounded = Number(r: real) | NotANumber | Undefined

  /** `round_decimal`: the exponent is cut to eight bits in the call of `pow_i64`. */
  function RoundDecimal(val: real, decimal: nat): Rounded {
    OutcomeRound(val, PowI64(10, decimal % 256))
  }

  function OutcomeRound(val: real, scale: Outcome): Rounded {
    match scale
    case Value(p) => ScaledRound(val, p as real)
    case GuardZero => NotANumber
    case Overflow => Undefined
  }

  function ScaledRound(val: real, f: real): Rounded {
    if f == 0.0 then NotANumber else Number(Round(val * f) as real / f)
  }

  function Distance(a: real, b: real): real { if a < b then b - a else a - b }

  lemma {:induction false} TenPowers(n: nat)
    ensures Pow(10, n) >= 1 && (InRange(Pow(10, n)) <==> n <= 18)
  {
    assert Pow(10, 6) == 1_000_000;
    assert Pow(10, 12) == 1_000_000 * 1_000_000 by { PowAdd(10, 6, 6); }
    assert Pow(10, 18) == 1_000_000 * 1_000_000 * 1_000_000 by { PowAdd(10, 12, 6); }
    if n <= 18 {
      PowGrows(10, n, 18);
    } else {
      assert Pow(10, 19) == 10 * Pow(10, 18);
      PowGrows(10, 19, n);
    }
    PowAtLeast(10, n);
  }

  lemma {:induction false} PowAdd(x: int, m: nat, n: nat)
    ensures Pow(x, m + n) == Pow(x, m) * Pow(x, n)
  {
    if m > 0 { PowAdd(x, m - 1, n); Regroup(x, Pow(x, m - 1), Pow(x, n)); }
  }

  lemma {:induction false} PowGrows(x: int, m: nat, n: nat)
    requires x >= 2 && m <= n
    ensures Pow(x, m) <= Pow(x, n) && (m < n ==> 2 * Pow(x, m) <= Pow(x, n))
    decreases n - m
  {
    if m < n {
      PowGrows(x, m, n - 1);
      PowAtLeast(x, n - 1);
      ProductAtLeast(Pow(x, n - 1), x - 1);
      assert Pow(x, n) == Pow(x, n - 1) * (x - 1) + Pow(x, n - 1);
    }
  }

  lemma RoundIsNear(v: real)
    ensures Distance(Round(v) as real, v) <= 0.5
  {
  }

  /** `n` is an integer nearest to `v`; of two it is the one away from zero. */
  predicate NearestTo(n: int, v: real) {
    Distance(n as real, v) <= 0.5 && (Distance(n as real, v) == 0.5 ==> if v > 0.0 then n as real > v else (n as real) < v)
  }

  lemma RoundIsNearest(v: real)
    ensures NearestTo(Round(v), v)
  {
  }

  /** That leaves no choice: halves go away from zero on both sides of it. */
  lemma NearestIsUnique(n: int, v: real)
    requires NearestTo(n, v)
    ensures n == Round(v) && NearestTo(-n, -v)
  {
    RoundIsNearest(v);
  }

  /** Within half of 1/f of `val`. */
  predicate CloseTo(r: Rounded, val: real, f: real) {
    r.Number? && f * Distance(r.r, val) <= 0.5
  }

  lemma ScaledDistance(q: real, b: real, f: real)
    requires f > 0.0
    ensures f * Distance(q, b) == Distance(q * f, b * f)
  {
    if q < b { Scaled(b, q, f); } else if b < q { Scaled(q, b, f); }
  }

  lemma Scaled(a: real, b: real, f: real)
    requires f > 0.0 && a > b
    ensures a * f > b * f
  {
  }

  lemma Quotient(a: real, f: real)
    requires f != 0.0
    ensures (a / f) * f == a
  {
  }

  lemma RoundScaled(val: real, f: real)
    requires f > 0.0
    ensures CloseTo(ScaledRound(val, f), val, f)
  {
    var n := Round(val * f) as real;
    RoundIsNear(val * f);
    Quotient(n, f);
    ScaledDistance(n / f, val, f);
  }

  lemma RoundOverPower(val: real, p: int)
    requires p >= 1
    ensures CloseTo(ScaledRound(val, p as real), val, p as real)
  {
    RoundScaled(val, p as real);
  }

  lemma HalfRoundsUp(f: real, a: real)
    requires f > 0.0 && a * f == 0.5
    ensures ScaledRound(a, f) == Number(a + a)
  {
    Quotient(1.0, f);
    assert Round(a * f) == 1;
    assert (a + a) * f == 1.0;
    SameQuotient(1.0 / f, a + a, f);
  }

  lemma SameQuotient(a: real, b: real, f: real)
    requires f > 0.0 && a * f == b * f
    ensures a == b
  {
    if a > b { Scaled(a, b, f); } else if b > a { Scaled(b, a, f); }
  }

  /** Halfway between two multiples of 1/f, rounding is not good enough for a finer unit. */
  lemma HalfwayMisses(a: real, f: real, g: real)
    requires 0.0 < f < g && a * f == 0.5
    ensures !CloseTo(ScaledRound(a, f), a, g)
  {
    HalfRoundsUp(f, a);
    if a < 0.0 { Scaled(0.0, a, f); }
    assert Distance(a + a, a) == a;
    Scaled(g, f, a);
  }

  /** The requested rounding: within half a unit of the last decimal. */
  predicate RoundsTo(val: real, decimal: nat) {
    CloseTo(RoundDecimal(val, decimal), val, Pow(10, decimal) as real)
  }

  lemma Enough(val: real, decimal: nat)
    requires decimal <= 18
    ensures RoundsTo(val, decimal)
  {
    TenPowers(decimal);
    PowExact(10, decimal);
    RoundDecimalIs(val, decimal, Pow(10, decimal));
    RoundOverPower(val, Pow(10, decimal));
  }

  /** A whole number nearest to `v`, halves going away from zero. */
  predicate WholeNearest(n: real, v: real) { n == n.Floor as real && NearestTo(n.Floor, v) }

  /** `r` is the multiple of 1/f nearest to `val`. */
  predicate NearestMultiple(r: Rounded, val: real, f: real) {
    r.Number? && WholeNearest(r.r * f, val * f)
  }

  lemma RoundIsWhole(v: real)
    ensures WholeNearest(Round(v) as real, v)
  {
    RoundIsNearest(v);
  }

  lemma NearestScaled(val: real, f: real)
    requires f > 0.0
    ensures NearestMultiple(ScaledRound(val, f), val, f)
  {
    var n := Round(val * f) as real;
    RoundIsWhole(val * f);
    Quotient(n, f);
    IsMultiple(n / f, n, val, f);
  }

  lemma IsMultiple(q: real, n: real, val: real, f: real)
    requires q * f == n && WholeNearest(n, val * f)
    ensures NearestMultiple(Number(q), val, f)
  {
    assert Number(q).r * f == n;
  }

  lemma NearestOverPower(val: real, p: int)
    requires p >= 1
    ensures NearestMultiple(ScaledRound(val, p as real), val, p as real)
  {
    NearestScaled(val, p as real);
  }

  /** Up to 18 decimals the result is the nearest number with so many decimals, halves going away from
      zero. */
  lemma RoundDecimalNearest(val: real, decimal: nat)
    requires decimal <= 18
    ensures NearestMultiple(RoundDecimal(val, decimal), val, Pow(10, decimal) as real)
  {
    TenPowers(decimal);
    PowExact(10, decimal);
    RoundDecimalIs(val, decimal, Pow(10, decimal));
    NearestOverPower(val, Pow(10, decimal));
  }

  lemma RoundDecimalIs(val: real, decimal: nat, p: int)
    requires decimal < 256 && PowI64(10, decimal) == Value(p)
    ensures RoundDecimal(val, decimal) == ScaledRound(val, p as real)
  {
    SmallRemainder(decimal);
    assert OutcomeRound(val, Value(p)) == ScaledRound(val, p as real);
  }

  lemma SmallRemainder(n: nat)
    requires n < 256
    ensures n % 256 == n
  {
  }

  lemma WrappedTo(p: int, q: int) returns (val: real)
    requires 1 <= p < q
    ensures !CloseTo(ScaledRound(val, p as real), val, q as real)
  {
    val := 0.5 / p as real;
    Quotient(0.5, p as real);
    HalfwayMisses(val, p as real, q as real);
  }

  /** Beyond eight bits the exponent wraps and a halfway value misses by more than requested. */
  lemma Wrapped(decimal: nat) returns (val: real)
    requires decimal >= 256
    ensures !RoundsTo(val, decimal)
  {
    var m := decimal % 256;
    TenPowers(m);
    PowExact(10, m);
    val := 0.0;
    if m <= 18 {
      PowGrows(10, m, decimal);
      val := WrappedTo(Pow(10, m), Pow(10, decimal));
    }
  }

  lemma NoNumber(decimal: nat)
    requires 18 < decimal < 256
    ensures !RoundsTo(0.0, decimal)
  {
    TenPowers(decimal);
    PowExact(10, decimal);
  }

  /** `round_decimal` is within half a unit for every value exactly when at most 18 decimals are asked
      for; 10^19 is no int64, and the exponent wraps at 256. */
  lemma RoundDecimalRightIff(decimal: nat)
    ensures (forall val :: RoundsTo(val, decimal)) <==> decimal <= 18
  {
    if decimal <= 18 {
      forall val ensures RoundsTo(val, decimal) { Enough(val, decimal); }
    } else if decimal >= 256 {
      var val := Wrapped(decimal);
    } else {
      NoNumber(decimal);
    }
  }
}
