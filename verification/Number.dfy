/**
 The 256-bit fixed-point `Number`: a natural scaled by 1e12.

 The rounding of `Mul` and `Div` (add half a unit of the scale, then truncate) is that of the
 `PreciseNumber` type of spl-math 0.3; it is the one thing assumed about that library.
 */
module Numbers {
  import opened Foundations

  const ONE: nat := 1_000_000_000_000
  const HALF: nat := 500_000_000_000

  type Number = nat

  function FromNatural(n: nat): Number {
    n * ONE
  }

  function Mul(a: Number, b: Number): Number {
    (a * b + HALF) / ONE
  }

  function Div(a: Number, b: Number): Number
    requires b > 0
  {
    var q := (a * ONE + HALF) / b;
    DivAtLeast(a * ONE + HALF, b, 0);
    q
  }

  /** `from_ratio`: a division by zero yields zero. */
  function FromRatio(num: nat, den: nat): Number {
    if den == 0 then 0 else Div(FromNatural(num), FromNatural(den))
  }

  /** `floor` keeps the whole units, `to_imprecise` rounds them to an integer. */
  function Floor(a: Number): nat {
    (a / ONE * ONE + HALF) / ONE
  }

  function Ceil(a: Number): nat {
    ((a + (ONE - 1)) / ONE * ONE + HALF) / ONE
  }

  lemma FloorIsQuotient(a: Number)
    ensures Floor(a) == a / ONE
  {
  }

  /** The half-unit correction never shows once the result is floored: only the exact quotient remains. */
  lemma FloorDivExact(a: Number, b: Number)
    requires b > 0
    ensures Floor(Div(a, b)) == a / b
  {
    var q := a / b;
    DivBounds(a, b);
    var y := Div(a, b);
    assert q * ONE <= y by {
      assert (q * ONE) * b == (b * q) * ONE;
      DivAtLeast(a * ONE + HALF, b, q * ONE);
    }
    assert y <= (q + 1) * ONE - 1 by {
      assert ((q + 1) * ONE) * b == (b * q + b) * ONE;
      DivAtMost(a * ONE + HALF, b, (q + 1) * ONE - 1);
    }
    FloorIsQuotient(y);
  }

  /** Multiplying by a whole number is exact. */
  lemma MulNaturalExact(a: Number, n: nat)
    ensures Mul(a, FromNatural(n)) == a * n
  {
    assert a * (n * ONE) == (a * n) * ONE;
  }

  lemma FloorMulNatural(a: Number, n: nat)
    ensures Floor(Mul(a, FromNatural(n))) == a * n / ONE
  {
    MulNaturalExact(a, n);
  }

  /** A ratio of whole numbers is the exact quotient rounded down to twelve decimals. */
  lemma FromRatioIsFloor(num: nat, den: nat)
    requires den > 0
    ensures FromRatio(num, den) == num * ONE / den
  {
    var q := num * ONE / den;
    DivBounds(num * ONE, den);
    assert q * (den * ONE) == (den * q) * ONE;
    assert (q + 1) * (den * ONE) == (den * q + den) * ONE;
    DivIs((num * ONE) * ONE + HALF, den * ONE, q);
  }

  /** A ceiling after a division can undershoot the true quotient by less than one unit of the scale. */
  lemma CeilDivSlack(a: Number, b: Number)
    requires b > 0
    ensures a * ONE < Ceil(Div(a, b)) * ONE * b + b
  {
    var q := Div(a, b);
    DivBounds(a * ONE + HALF, b);
    assert b * q + b > a * ONE;
    assert Ceil(q) == (q + (ONE - 1)) / ONE;
    assert q <= Ceil(q) * ONE;
    MulMono(q, Ceil(q) * ONE, b);
  }
}
