/**
 The operations of sdkmath.LegacyDec that the modelled code uses, on raw integers scaled
 by 10^18.  Division of big.Int truncates towards zero; Mul and Quo round half to even.
 The 315-bit overflow panics are not modelled.
 */
module LegacyDec {
  const ONE: int := 1_000_000_000_000_000_000
  const HALF: int := 500_000_000_000_000_000

  /** A raw decimal: the value times 10^18. */
  type Dec = int

  function FromInt(n: int): Dec {
    n * ONE
  }

  /** big.Int Quo. */
  function TruncDiv(a: int, b: int): int
    requires b != 0
  {
    if a >= 0 then (if b > 0 then a / b else -(a / -b))
    else (if b > 0 then -(-a / b) else -a / -b)
  }

  /** chopPrecisionAndRound on a non-negative value. */
  function ChopNat(x: nat): (r: int)
    ensures r >= 0
  {
    var q, r := x / ONE, x % ONE;
    if r < HALF then q
    else if r > HALF then q + 1
    else if q % 2 == 0 then q else q + 1
  }

  function Chop(x: int): int {
    if x < 0 then -ChopNat(-x) else ChopNat(x)
  }

  function Mul(a: Dec, b: Dec): Dec {
    Chop(a * b)
  }

  function MulInt(a: Dec, n: int): Dec {
    a * n
  }

  /** Quo scales by 10^36, truncates, and rounds 18 digits away. */
  function Quo(a: Dec, b: Dec): Dec
    requires b != 0
  {
    Chop(TruncDiv(a * ONE * ONE, b))
  }

  function QuoInt(a: Dec, n: int): Dec
    requires n != 0
  {
    TruncDiv(a, n)
  }

  function TruncateInt(a: Dec): int {
    TruncDiv(a, ONE)
  }

  function RoundInt(a: Dec): int {
    Chop(a)
  }

  function Ceil(a: Dec): Dec {
    var q := TruncDiv(a, ONE);
    if a > q * ONE then FromInt(q + 1) else FromInt(q)
  }

  // ---------------------------------------------------------------- what the operations compute

  /** r is x with 18 digits rounded away: the nearest, and the even one of two that are equally near. */
  predicate Rounds(x: int, r: int) {
    var off := 2 * (r * 1_000_000_000_000_000_000 - x);
    && -1_000_000_000_000_000_000 <= off <= 1_000_000_000_000_000_000
    && (off == 1_000_000_000_000_000_000 || off == -1_000_000_000_000_000_000 ==> r % 2 == 0)
  }

  /** Rounding off 18 digits, for either sign; there is only one result. */
  lemma ChopIsNearestEven(x: int, r: int)
    ensures r == Chop(x) <==> Rounds(x, r)
  {
    ChopRounds(x);
    RoundsOnce(x, r, Chop(x));
  }

  lemma ChopRounds(x: int)
    ensures Rounds(x, Chop(x))
  {
  }

  lemma RoundsOnce(x: int, r: int, r': int)
    requires Rounds(x, r')
    ensures Rounds(x, r) ==> r == r'
  {
  }

  /** A product has one rounding, of its exact value. */
  lemma MulIsNearestEven(a: Dec, b: Dec, r: Dec)
    ensures r == Mul(a, b) <==> Rounds(a * b, r)
  {
    ChopIsNearestEven(a * b, r);
  }

  /** A quotient is taken to 36 digits, the rest cut off, and then rounded to 18. */
  lemma QuoIsNearestEven(a: nat, b: nat, r: Dec)
    requires b > 0
    ensures r == Quo(a, b) <==>
            Rounds(a * 1_000_000_000_000_000_000_000_000_000_000_000_000 / b, r)
  {
    assert a * ONE * ONE == a * 1_000_000_000_000_000_000_000_000_000_000_000_000;
    ChopIsNearestEven(TruncDiv(a * ONE * ONE, b), r);
    hide Chop, Rounds;
  }

  /** Integer division towards zero: what is left over is smaller than the divisor and has the sign of the dividend. */
  lemma TruncDivIsTowardsZero(a: int, b: int, q: int)
    requires b != 0
    ensures q == TruncDiv(a, b) <==>
            var rest := a - q * b;
            && (if a >= 0 then 0 <= rest else rest <= 0)
            && (if b > 0 then -b < rest < b else b < rest < -b)
  {
    var d, n: nat := if b > 0 then b else -b, if a >= 0 then a else -a;
    DivBound(n, d);
    var r := if (a >= 0) == (b > 0) then q else -q;
    assert q * b == if a >= 0 then r * d else -(r * d);
    if r * d <= n < r * d + d { OnlyQuotient(n, d, r); }
  }

  lemma OnlyQuotient(n: nat, d: nat, r: int)
    requires d > 0 && r * d <= n < r * d + d
    ensures r == n / d
  {
    NegativeMultiple(r, d);
    DivBound(n, d);
    NegativeMultiple(r - n / d, d);
    NegativeMultiple(n / d - r, d);
    assert (r - n / d) * d == r * d - n / d * d && (n / d - r) * d == n / d * d - r * d;
  }

  /** A multiple that is not below the divisor's opposite has a factor that is not negative. */
  lemma NegativeMultiple(x: int, d: nat)
    requires d > 0
    ensures x <= -1 ==> x * d + d <= 0
  {
  }

  /** The ceiling is the least whole number of units that is not less. */
  lemma CeilIsLeast(a: Dec) returns (n: int)
    ensures Ceil(a) == n * 1_000_000_000_000_000_000
    ensures (n - 1) * 1_000_000_000_000_000_000 < a <= n * 1_000_000_000_000_000_000
  {
    n := Ceil(a) / ONE;
  }

  // ---------------------------------------------------------------- laws

  /** Rounding is within half a unit of the exact value. */
  lemma ChopNear(x: nat)
    ensures -HALF <= Chop(x) * ONE - x <= HALF
  {
  }

  /** Rounding is exact on whole units and monotone. */
  lemma ChopExact(n: nat)
    ensures Chop(n * ONE) == n
  {
  }

  /** A whole number times a decimal is exact. */
  lemma MulFromInt(n: nat, a: Dec)
    ensures Mul(FromInt(n), a) == n * a
  {
    var m := if n * a >= 0 then n * a else -(n * a);
    assert (n * ONE) * a == (n * a) * ONE;
    ChopExact(m);
    if n * a < 0 { assert Chop(-(m * ONE)) == -ChopNat(m * ONE); }
  }

  lemma ChopMono(x: nat, y: nat)
    requires x <= y
    ensures Chop(x) <= Chop(y)
  {
    if x / ONE < y / ONE {
      assert ChopNat(x) <= x / ONE + 1 <= y / ONE <= ChopNat(y);
    }
  }

  lemma DivBound(a: nat, b: nat)
    requires b > 0
    ensures (a / b) * b <= a < (a / b) * b + b
  {
  }

  /** Division is the largest q with q * b <= a. */
  lemma DivLargest(a: nat, b: nat, q: nat)
    requires b > 0
    ensures q * b <= a <==> q <= a / b
  {
    DivBound(a, b);
    if q <= a / b {
      assert q * b <= (a / b) * b by { MulLe(q, a / b, b); }
    } else {
      MulLe(a / b + 1, q, b);
      assert (a / b + 1) * b == (a / b) * b + b;
    }
  }

  lemma MulLe(x: nat, y: nat, b: nat)
    requires x <= y
    ensures x * b <= y * b
  {
  }

  lemma DivMono(a1: nat, b1: nat, a2: nat, b2: nat)
    requires a1 <= a2 && b1 >= b2 > 0
    ensures a1 / b1 <= a2 / b2
  {
    var q := a1 / b1;
    DivBound(a1, b1);
    assert q * b2 <= q * b1 by { MulLe(b2, b1, q); }
    DivLargest(a2, b2, q);
  }

  lemma QuoNat(a: nat, b: nat)
    requires b > 0
    ensures Quo(a, b) == ChopNat(a * ONE * ONE / b)
  {
    assert a * ONE * ONE >= 0;
    assert a * ONE * ONE / b >= 0;
  }

  lemma QuoMono(a1: nat, b1: nat, a2: nat, b2: nat)
    requires a1 <= a2 && b1 >= b2 > 0
    ensures 0 <= Quo(a1, b1) <= Quo(a2, b2)
  {
    QuoNat(a1, b1);
    QuoNat(a2, b2);
    DivMono(a1 * ONE * ONE, b1, a2 * ONE * ONE, b2);
    ChopMono(a1 * ONE * ONE / b1, a2 * ONE * ONE / b2);
  }

  /** A quotient of at least one is at least one after truncation and rounding. */
  lemma QuoAtLeastOne(a: nat, b: nat)
    requires a >= b > 0
    ensures Quo(a, b) >= ONE
  {
    QuoNat(a, b);
    MulLe(b, a, ONE * ONE);
    DivLargest(a * ONE * ONE, b, ONE * ONE);
    ChopMono(ONE * ONE, a * ONE * ONE / b);
    ChopExact(ONE);
  }

  /** Quo is within half a unit in the last place of the exact quotient, but for the digits cut off before. */
  lemma QuoNearest(a: nat, b: nat)
    requires b > 0
    ensures 0 - (HALF + 1) * b <= (Quo(a, b) * b - a * ONE) * ONE <= HALF * b
  {
    QuoNat(a, b);
    var x := a * ONE * ONE / b;
    var q := Quo(a, b);
    DivBound(a * ONE * ONE, b);
    ChopNear(x);
    hide Quo;
    // q * ONE is within HALF of x, and x * b within b below a * ONE * ONE.
    MulBound(q * ONE - x, HALF, b);
    Distribute(q, x, b);
  }

  lemma Distribute(q: int, x: int, b: int)
    ensures (q * ONE - x) * b == q * b * ONE - x * b
  {
  }

  /** Quo is within one unit in the last place of the exact quotient. */
  lemma QuoNear(a: nat, b: nat)
    requires b > 0
    ensures 0 - b <= Quo(a, b) * b - a * ONE <= b
  {
    QuoNearest(a, b);
    Unscale(Quo(a, b) * b - a * ONE, b);
  }

  lemma Unscale(x: int, b: nat)
    requires -(HALF + 1) * b <= x * ONE <= HALF * b
    ensures 0 - b <= x <= b
  {
  }

  lemma MulBound(x: int, h: nat, b: nat)
    requires 0 - h <= x <= h
    ensures (0 - h) * b <= x * b <= h * b
  {
  }
}
