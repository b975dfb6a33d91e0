/** Result values, u64 arithmetic and division facts shared by every program model. */
module Foundations {

  /** The outcome of an instruction: a value, or the error that makes the runtime discard the transaction. */
  datatype Result<+T, +E> = Ok(value: T) | Err(error: E) {
    predicate IsFailure() {
      Err?
    }

    function PropagateFailure<U>(): Result<U, E>
      requires Err?
    {
      Err(error)
    }

    function Extract(): T
      requires Ok?
    {
      value
    }
  }

  const U64_MAX: nat := 0xFFFF_FFFF_FFFF_FFFF

  function Min(a: int, b: int): int {
    if a < b then a else b
  }

  function Max(a: int, b: int): int {
    if a < b then b else a
  }

  /** Rust's `saturating_add` on u64. */
  function SatAdd(a: nat, b: nat): nat {
    Min(a + b, U64_MAX)
  }

  /** Rust's `saturating_sub`. */
  function SatSub(a: nat, b: nat): nat {
    if a < b then 0 else a - b
  }

  lemma DivBounds(n: int, d: int)
    requires d > 0
    ensures d * (n / d) <= n < d * (n / d) + d
  {
  }

  lemma DivIs(n: int, d: int, q: int)
    requires d > 0
    requires q * d <= n < (q + 1) * d
    ensures n / d == q
  {
    DivBounds(n, d);
    if n / d < q {
      MulMono(n / d + 1, q, d);
    } else if n / d > q {
      MulMono(q + 1, n / d, d);
    }
  }

  lemma DivAtMost(n: int, d: int, q: int)
    requires d > 0
    requires n < (q + 1) * d
    ensures n / d <= q
  {
    DivBounds(n, d);
    if n / d > q {
      MulMono(q + 1, n / d, d);
    }
  }

  lemma DivAtLeast(n: int, d: int, q: int)
    requires d > 0
    requires q * d <= n
    ensures q <= n / d
  {
    DivBounds(n, d);
    if n / d < q {
      MulMono(n / d + 1, q, d);
    }
  }

  lemma MulMono(a: int, b: int, c: int)
    requires a <= b && 0 <= c
    ensures a * c <= b * c
  {
  }

  lemma Distribute(c: int, x: int, y: int)
    ensures c * (x + y) == c * x + c * y
  {
  }

  /** A positive factor can be cancelled from both sides of `<=`. */
  lemma MulCancel(a: int, b: int, c: int)
    requires 0 < c
    requires a * c <= b * c
    ensures a <= b
  {
    if b < a {
      MulMono(b + 1, a, c);
    }
  }

  /** Ratios `x / lx <= y / ly <= z / lz` join. */
  lemma RatioJoins(x: nat, lx: nat, y: nat, ly: nat, z: nat, lz: nat)
    requires ly > 0 && x * ly <= y * lx && y * lz <= z * ly
    ensures x * lz <= z * lx
  {
    MulMono(x * ly, y * lx, lz);
    MulMono(y * lz, z * ly, lx);
    assert (x * lz) * ly == x * ly * lz && y * lz * lx == y * lx * lz && (z * lx) * ly == z * ly * lx;
    MulCancel(x * lz, z * lx, ly);
  }
}

/** Sums over the values of a finite map: the balances of all accounts of one kind. */
module MapSums {
  import opened Foundations

  ghost function Sum<K(!new)>(m: map<K, int>): int
    decreases |m|
  {
    if m == map[] then 0
    else
      var k :| k in m;
      m[k] + Sum(m - {k})
  }

  lemma {:induction false} SumRemove<K(!new)>(m: map<K, int>, k: K)
    requires k in m
    ensures Sum(m) == m[k] + Sum(m - {k})
    decreases |m|
  {
    var k0 :| k0 in m && Sum(m) == m[k0] + Sum(m - {k0});
    if k0 != k {
      SumRemove(m - {k0}, k);
      SumRemove(m - {k}, k0);
      assert m - {k0} - {k} == m - {k} - {k0};
    }
  }

  lemma SumPut<K(!new)>(m: map<K, int>, k: K, v: int)
    ensures Sum(m[k := v]) == Sum(m) + v - (if k in m then m[k] else 0)
  {
    SumRemove(m[k := v], k);
    assert m[k := v] - {k} == m - {k};
    if k in m {
      SumRemove(m, k);
    } else {
      assert m - {k} == m;
    }
  }

  lemma {:induction false} SumPlus<K(!new)>(m: map<K, int>, d: map<K, int>, n: map<K, int>)
    requires m.Keys == d.Keys == n.Keys
    requires forall k :: k in m ==> n[k] == m[k] + d[k]
    ensures Sum(n) == Sum(m) + Sum(d)
    decreases |m|
  {
    if m == map[] {
      assert n == map[] && d == map[];
    } else {
      var k :| k in m;
      SumRemove(m, k);
      SumRemove(d, k);
      SumRemove(n, k);
      SumPlus(m - {k}, d - {k}, n - {k});
    }
  }

  /** Weights times a common factor sum to the factor times their total. */
  lemma {:induction false} SumScaled<K(!new)>(w: map<K, int>, c: int, n: map<K, int>)
    requires n.Keys == w.Keys
    requires forall k :: k in w ==> n[k] == c * w[k]
    ensures Sum(n) == c * Sum(w)
    decreases |w|
  {
    if w == map[] {
      assert n == map[];
    } else {
      var k :| k in w;
      SumRemove(w, k);
      SumRemove(n, k);
      SumScaled(w - {k}, c, n - {k});
      Distribute(c, w[k], Sum(w - {k}));
    }
  }

  lemma {:induction false} SumMono<K(!new)>(m: map<K, int>, n: map<K, int>)
    requires m.Keys == n.Keys
    requires forall k :: k in m ==> m[k] <= n[k]
    ensures Sum(m) <= Sum(n)
    decreases |m|
  {
    if m != map[] {
      var k :| k in m;
      SumRemove(m, k);
      SumRemove(n, k);
      SumMono(m - {k}, n - {k});
    } else {
      assert n == map[];
    }
  }

  lemma {:induction false} SumNonNegative<K(!new)>(m: map<K, int>)
    requires forall k :: k in m ==> 0 <= m[k]
    ensures 0 <= Sum(m)
    decreases |m|
  {
    if m != map[] {
      var k :| k in m;
      SumRemove(m, k);
      SumNonNegative(m - {k});
    }
  }

  /** No single balance exceeds the total of non-negative balances. */
  lemma SumCovers<K(!new)>(m: map<K, int>, k: K)
    requires forall j :: j in m ==> 0 <= m[j]
    requires k in m
    ensures m[k] <= Sum(m)
  {
    SumRemove(m, k);
    SumNonNegative(m - {k});
  }
}

/** Sums of exact shares over the accounts of one kind. */
module ShareSums {
  import MapSums

  ghost function Sum<K(!new)>(m: map<K, real>): real
    decreases |m|
  {
    if m == map[] then 0.0
    else
      var k :| k in m;
      m[k] + Sum(m - {k})
  }

  lemma {:induction false} SumRemove<K(!new)>(m: map<K, real>, k: K)
    requires k in m
    ensures Sum(m) == m[k] + Sum(m - {k})
    decreases |m|
  {
    var k0 :| k0 in m && Sum(m) == m[k0] + Sum(m - {k0});
    if k0 != k {
      SumRemove(m - {k0}, k);
      SumRemove(m - {k}, k0);
      assert m - {k0} - {k} == m - {k} - {k0};
    }
  }

  lemma SumPut<K(!new)>(m: map<K, real>, k: K, v: real)
    ensures Sum(m[k := v]) == Sum(m) + v - (if k in m then m[k] else 0.0)
  {
    SumRemove(m[k := v], k);
    assert m[k := v] - {k} == m - {k};
    if k in m {
      SumRemove(m, k);
    } else {
      assert m - {k} == m;
    }
  }

  lemma {:induction false} SumPlus<K(!new)>(m: map<K, real>, d: map<K, real>, n: map<K, real>)
    requires m.Keys == d.Keys == n.Keys
    requires forall k :: k in m ==> n[k] == m[k] + d[k]
    ensures Sum(n) == Sum(m) + Sum(d)
    decreases |m|
  {
    if m == map[] {
      assert n == map[] && d == map[];
    } else {
      var k :| k in m;
      SumRemove(m, k);
      SumRemove(d, k);
      SumRemove(n, k);
      SumPlus(m - {k}, d - {k}, n - {k});
    }
  }

  /** The part of a weight: what `c` per unit gives. */
  function Part(c: real, weight: int): real {
    c * weight as real
  }

  lemma PartAdds(c: real, x: int, y: int)
    ensures Part(c, x + y) == Part(c, x) + Part(c, y)
  {
    assert (x + y) as real == x as real + y as real;
  }

  /** Giving every account `c` per unit of its weight gives all of them `c` per unit of the total weight. */
  lemma {:induction false} SumOfParts<K(!new)>(n: map<K, real>, w: map<K, int>, c: real)
    requires n.Keys == w.Keys
    requires forall k :: k in n ==> n[k] == Part(c, w[k])
    ensures Sum(n) == Part(c, MapSums.Sum(w))
    decreases |w|
  {
    if w == map[] {
      assert n == map[];
    } else {
      hide Part;
      var k :| k in w;
      SumRemove(n, k);
      MapSums.SumRemove(w, k);
      SumOfParts(n - {k}, w - {k}, c);
      PartAdds(c, w[k], MapSums.Sum(w - {k}));
    }
  }
}

/** Facts about products and quotients of reals, stated so that each carries one product. */
module RealFacts {

  lemma QuotientTimes(a: real, b: real)
    requires b != 0.0
    ensures a / b * b == a
  {
  }

  lemma MulMonoReal(t: real, x: real, y: real)
    requires 0.0 <= t && x <= y
    ensures t * x <= t * y
  {
  }

  lemma MulStrictReal(t: real, x: real, y: real, tx: real, ty: real)
    requires t > 0.0 && x < y && tx == t * x && ty == t * y
    ensures tx < ty
  {
  }

  lemma CancelReal(t: real, x: real, y: real, tx: real, ty: real)
    requires t > 0.0 && tx == t * x && ty == t * y && tx <= ty
    ensures x <= y
  {
  }

  lemma Regroup(a: real, b: real, c: real)
    ensures a * (b * c) == b * (c * a)
  {
  }

  lemma DistributeReal(a: real, b: real, c: real)
    ensures a * (b + c) == a * b + a * c
  {
  }
}
