/**
 When a ceiled division of `Number`s covers the true quotient.

 The half-unit correction makes a remainder of less than about 1e-12 of the divisor round to nothing
 before the ceiling sees it, so a divisor above 1.5 can leave the payer one unit short of rounding up.
 */
module CeilRounding {
  import opened Foundations
  import opened Numbers

  // ---------- One division ----------

  /** The remainder, scaled and corrected, is what decides whether the ceiling rounds up. */
  lemma CeilDivIs(a: Number, b: Number)
    requires b > 0
    ensures Ceil(Div(a, b)) == a / b + if a % b * ONE + HALF < b then 0 else 1
  {
    QuotientIs(a, b, a / b, a % b);
    CorrectionIs(a % b, b);
    hide Div, Ceil;
    CeilOf(a / b, (a % b * ONE + HALF) / b);
  }

  lemma QuotientIs(a: nat, b: nat, k: nat, r: nat)
    requires b > 0 && a == b * k + r
    ensures Div(a, b) == k * ONE + (r * ONE + HALF) / b
  {
    var n := r * ONE + HALF;
    DivBounds(n, b);
    DivAtLeast(n, b, 0);
    SplitDividend(a, b, k, r);
    QuotientSplits(b, k, n, n / b);
  }

  lemma CorrectionIs(r: nat, b: nat)
    requires r < b
    ensures 0 <= (r * ONE + HALF) / b < ONE
    ensures (r * ONE + HALF) / b == 0 <==> r * ONE + HALF < b
  {
    var n := r * ONE + HALF;
    DivAtLeast(n, b, 0);
    RemainderScaled(r, b);
    DivAtMost(n, b, ONE - 1);
    if n < b {
      DivIs(n, b, 0);
    } else {
      DivAtLeast(n, b, 1);
    }
  }

  lemma SplitDividend(a: nat, b: nat, k: nat, r: nat)
    requires a == b * k + r
    ensures a * ONE + HALF == b * (k * ONE) + (r * ONE + HALF)
  {
    assert b * k * ONE == b * (k * ONE);
  }

  lemma QuotientSplits(b: nat, k: nat, n: nat, t: nat)
    requires b > 0 && b * t <= n < b * t + b
    ensures (b * (k * ONE) + n) / b == k * ONE + t
  {
    Distribute(b, k * ONE, t);
    Distribute(b, k * ONE + t, 1);
    DivIs(b * (k * ONE) + n, b, k * ONE + t);
  }

  lemma RemainderScaled(r: nat, b: nat)
    requires r < b
    ensures r * ONE + HALF < ONE * b
  {
  }

  lemma CeilOf(k: nat, t: nat)
    requires t < ONE
    ensures Ceil(k * ONE + t) == k + if t == 0 then 0 else 1
  {
  }

  /** A ceiled division covers the quotient exactly when it divides evenly or the remainder is not too small. */
  lemma CeilDivCoversIff(a: Number, b: Number)
    requires b > 0
    ensures Ceil(Div(a, b)) * b >= a <==> a % b == 0 || a % b * ONE + HALF >= b
  {
    CeilDivIs(a, b);
    DivBounds(a, b);
    hide Ceil, Div;
    Distribute(b, a / b, 1);
  }

  // ---------- Natural dividends ----------

  /** A natural amount divided by a rate: the ceiling covers it. */
  predicate CoveredAt(amount: nat, rate: Number)
    requires rate > 0
  {
    var rest := amount * ONE % rate;
    rest == 0 || rest * ONE + HALF >= rate
  }

  /** It need not: three asset at 2.999999999999 asset per SY has the ceiling one, which is worth less. */
  lemma CeilUndershoots()
    ensures var rate := 2_999_999_999_999;
            Ceil(Div(FromNatural(3), rate)) == 1 && rate < FromNatural(3) && !CoveredAt(3, rate)
  {
  }

  function Gcd(a: nat, b: nat): nat
    decreases b
  {
    if b == 0 then a else Gcd(b, a % b)
  }

  lemma MultipleOf(n: int, g: nat, k: int)
    requires g > 0 && n == g * k
    ensures n % g == 0
  {
    DivIs(n, g, k);
  }

  lemma {:induction false} GcdDivides(a: nat, b: nat)
    requires a > 0
    ensures Gcd(a, b) > 0 && a % Gcd(a, b) == 0 && b % Gcd(a, b) == 0
    decreases b
  {
    if b == 0 {
      MultipleOf(a, a, 1);
    } else {
      GcdDivides(b, a % b);
      var g := Gcd(b, a % b);
      DividesSum(b, a % b, a / b, g, a);
    }
  }

  lemma DividesSum(b: nat, r: nat, q: nat, g: nat, a: nat)
    requires g > 0 && b % g == 0 && r % g == 0 && a == b * q + r
    ensures a % g == 0
  {
    var m, n := b / g, r / g;
    assert b == g * m && r == g * n;
    assert g * m * q == g * (m * q);
    Distribute(g, m * q, n);
    MultipleOf(a, g, m * q + n);
  }

  /** The greatest common divisor is a combination of the two. */
  lemma {:induction false} GcdCombines(a: nat, b: nat) returns (x: int, y: int)
    ensures x * a + y * b == Gcd(a, b)
    decreases b
  {
    if b == 0 {
      x, y := 1, 0;
    } else {
      var u, v := GcdCombines(b, a % b);
      x, y := v, u - v * (a / b);
      CombineStep(a, b, a / b, a % b, u, v);
    }
  }

  lemma CombineStep(a: int, b: int, q: int, r: int, u: int, v: int)
    requires a == b * q + r
    ensures v * a + (u - v * q) * b == u * b + v * r
  {
    Distribute(v, b * q, r);
    Distribute(b, u, -(v * q));
    assert v * (b * q) == b * (v * q);
  }

  /** A rate at which no ceiled amount falls short. Every rate up to 1.5 is one. */
  predicate Covering(rate: Number) {
    Gcd(ONE, rate) * ONE + HALF >= rate
  }

  lemma LowRatesCover(rate: Number)
    requires rate <= ONE + HALF
    ensures Covering(rate)
  {
    GcdDivides(ONE, rate);
    hide Gcd;
  }

  /**
   A rate covers every natural amount exactly when this holds of its common divisor with 1e12, and amounts below
   the rate decide it.
   */
  lemma CoveringIff(rate: Number)
    requires rate > 0
    ensures Covering(rate) <==> forall amount: nat :: CoveredAt(amount, rate)
    ensures Covering(rate) <==> forall amount: nat :: amount < rate ==> CoveredAt(amount, rate)
  {
    hide Gcd, CoveredAt;
    if Covering(rate) {
      forall amount: nat ensures CoveredAt(amount, rate) {
        CoveringCovers(amount, rate);
      }
    } else {
      var amount := WorstAmount(rate);
      assert !CoveredAt(amount, rate);
    }
  }

  lemma CoveringCovers(amount: nat, rate: Number)
    requires rate > 0 && Covering(rate)
    ensures CoveredAt(amount, rate)
  {
    var g, n := Gcd(ONE, rate), amount * ONE;
    GcdDivides(ONE, rate);
    hide Gcd;
    var rest := n % rate;
    DivBounds(n, rate);
    RestDivisible(amount, rate, n / rate, rest, g);
    if rest != 0 {
      assert rest >= g by { assert rest == g * (rest / g); MulMono(1, rest / g, g); }
      MulMono(g, rest, ONE);
    }
  }

  lemma RestDivisible(amount: nat, rate: nat, q: int, rest: nat, g: nat)
    requires g > 0 && ONE % g == 0 && rate % g == 0 && amount * ONE == rate * q + rest
    ensures rest % g == 0
  {
    var m, n := ONE / g, rate / g;
    assert ONE == g * m && rate == g * n;
    assert amount * (g * m) == g * (amount * m);
    assert g * n * q == g * (n * q);
    Distribute(g, amount * m, -(n * q));
    MultipleOf(rest, g, amount * m - n * q);
  }

  /** At any other rate some amount leaves the common divisor as remainder, and is not covered. */
  lemma WorstAmount(rate: Number) returns (amount: nat)
    requires rate > 0 && !Covering(rate)
    ensures amount < rate && !CoveredAt(amount, rate)
  {
    var g := Gcd(ONE, rate);
    var x, y := GcdCombines(ONE, rate);
    GcdDivides(ONE, rate);
    hide Gcd;
    DivBounds(x, rate);
    amount := x - rate * (x / rate);
    Shifted(x, y, rate, x / rate, g);
    assert 0 < g < rate;
    RemainderIs(amount * ONE, rate, -(y + x / rate * ONE), g);
  }

  lemma Shifted(x: int, y: int, rate: int, k: int, g: int)
    requires x * ONE + y * rate == g
    ensures (x - rate * k) * ONE == -(y + k * ONE) * rate + g
  {
    Distribute(rate, k * ONE, y);
    assert rate * k * ONE == rate * (k * ONE);
  }

  lemma RemainderIs(n: int, d: int, q: int, r: int)
    requires d > 0 && n == q * d + r && 0 <= r < d
    ensures n % d == r
  {
    Distribute(d, q, 1);
    DivIs(n, d, q);
  }
}
