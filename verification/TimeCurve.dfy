/**
 The time curve in exact real arithmetic.

 The library is generic over its number type and the programs run it at f64; here it is instantiated
 at the reals, with `to_u64` as truncation. `ln` and `exp` are parameters known only by their laws.
 */
module TimeCurve {
  import opened Foundations
  import opened RealFacts

  datatype Analysis = Analysis(ln: real -> real, exp: real -> real)

  ghost predicate Lawful(a: Analysis) {
    && a.exp(0.0) == 1.0
    && (forall x :: a.exp(x) > 0.0)
    && (forall x :: a.ln(a.exp(x)) == x)
    && (forall y :: y > 0.0 ==> a.exp(a.ln(y)) == y)
    && (forall x, y :: x < y ==> a.exp(x) < a.exp(y))
  }

  /** An example with exp(x) = 1 + x upwards of zero and 1 / (1 - x) below. */
  function Sample(): Analysis {
    Analysis(y => if y >= 1.0 then y - 1.0 else if y > 0.0 then 1.0 - 1.0 / y else 0.0,
             x => if x >= 0.0 then 1.0 + x else 1.0 / (1.0 - x))
  }

  /** The laws can be met. */
  lemma LawsSatisfiable()
    ensures Lawful(Sample())
  {
    var a := Sample();
    hide Sample;
    forall x
      ensures a.exp(x) > 0.0 && a.ln(a.exp(x)) == x
    {
      SampleExp(x);
    }
    forall y | y > 0.0
      ensures a.exp(a.ln(y)) == y
    {
      SampleLn(y);
    }
    forall x, y | x < y
      ensures a.exp(x) < a.exp(y)
    {
      SampleExpRises(x, y);
    }
    SampleAtZero();
  }

  lemma SampleAtZero()
    ensures Sample().exp(0.0) == 1.0
  {
  }

  lemma SampleExp(x: real)
    ensures Sample().exp(x) > 0.0 && Sample().ln(Sample().exp(x)) == x
  {
    if x < 0.0 {
      SmallExp(x);
    }
  }

  lemma SampleLn(y: real)
    requires y > 0.0
    ensures Sample().exp(Sample().ln(y)) == y
  {
    if y < 1.0 {
      SmallLn(y);
    }
  }

  lemma SampleExpRises(x: real, y: real)
    requires x < y
    ensures Sample().exp(x) < Sample().exp(y)
  {
    if x < 0.0 {
      SmallExp(x);
      if y < 0.0 {
        SmallExpRises(x, y);
      }
    }
  }

  lemma SmallExp(x: real)
    requires x < 0.0
    ensures 0.0 < 1.0 / (1.0 - x) < 1.0 && 1.0 - 1.0 / (1.0 / (1.0 - x)) == x
  {
    var d := 1.0 - x;
    assert 1.0 / (1.0 / d) == d;
  }

  lemma SmallLn(y: real)
    requires 0.0 < y < 1.0
    ensures 1.0 - 1.0 / y < 0.0 && 1.0 / (1.0 - (1.0 - 1.0 / y)) == y
  {
    var q := 1.0 / y;
    QuotientTimes(1.0, y);
    if q <= 1.0 {
      MulMonoReal(y, q, 1.0);
    }
    assert 1.0 / q == y;
  }

  lemma SmallExpRises(x: real, y: real)
    requires x < y < 0.0
    ensures 1.0 / (1.0 - x) < 1.0 / (1.0 - y)
  {
    var p, q := 1.0 / (1.0 - x), 1.0 / (1.0 - y);
    QuotientTimes(1.0, 1.0 - x);
    QuotientTimes(1.0, 1.0 - y);
    SmallExp(y);
    MulStrictReal(q, 1.0 - y, 1.0 - x, q * (1.0 - y), q * (1.0 - x));
    if q <= p {
      MulMonoReal(1.0 - x, q, p);
    }
  }

  const YEAR_SEC: nat := 31_536_000

  /** `to_u64`, truncating; a negative number becomes zero. */
  function ToU64(x: real): nat {
    if x < 0.0 then 0 else x.Floor
  }

  // ---------- Rates ----------

  function Years(secRemaining: nat): real {
    secRemaining as real / YEAR_SEC as real
  }

  function ProportionPt(pt: real, asset: real): real
    requires pt + asset > 0.0
  {
    pt / (pt + asset)
  }

  function Logit(a: Analysis, p: real): real
    requires p < 1.0
  {
    a.ln(p / (1.0 - p))
  }

  function ExchangeRate(logit: real, scalar: real, anchor: real): real
    requires scalar != 0.0
  {
    logit / scalar + anchor
  }

  function RateScalar(root: real, secRemaining: nat): real
    requires secRemaining > 0
  {
    root / Years(secRemaining)
  }

  function FeeRate(a: Analysis, lnRoot: real, secRemaining: nat): real {
    a.exp(lnRoot * Years(secRemaining))
  }

  function ExchangeRateFromLn(a: Analysis, lnRate: real, secRemaining: nat): real {
    a.exp(lnRate * Years(secRemaining))
  }

  /** The logit of the share of PT in reserves of `pt` and `asset`. */
  function ReserveLogit(a: Analysis, pt: nat, asset: nat): real
    requires pt > 0 && asset > 0
  {
    ProportionBelowOne(pt as real, asset as real);
    Logit(a, ProportionPt(pt as real, asset as real))
  }

  function FindRateAnchor(a: Analysis, pt: nat, asset: nat, scalar: real, lnRate: real, secRemaining: nat): real
    requires pt > 0 && asset > 0 && scalar != 0.0
  {
    ExchangeRateFromLn(a, lnRate, secRemaining) - ReserveLogit(a, pt, asset) / scalar
  }

  function LnImpliedRate(a: Analysis, pt: nat, asset: nat, scalar: real, anchor: real, secRemaining: nat): real
    requires pt > 0 && asset > 0 && scalar != 0.0 && secRemaining > 0
  {
    a.ln(ExchangeRate(ReserveLogit(a, pt, asset), scalar, anchor)) / Years(secRemaining)
  }

  lemma ProportionBelowOne(pt: real, asset: real)
    requires pt > 0.0 && asset > 0.0
    ensures 0.0 < ProportionPt(pt, asset) < 1.0
  {
    var p := ProportionPt(pt, asset);
    QuotientTimes(pt, pt + asset);
    if p >= 1.0 {
      MulMonoReal(pt + asset, 1.0, p);
    } else if p <= 0.0 {
      MulMonoReal(pt + asset, p, 0.0);
    }
  }

  lemma QuotientExact(y: real, t: real)
    requires t != 0.0
    ensures y * t / t == y
  {
  }

  /**
   With time remaining, the anchor found for an implied rate reads back that rate: recomputing the
   anchor on new reserves and then the implied rate changes nothing.
   */
  lemma AnchorRoundTrip(a: Analysis, pt: nat, asset: nat, scalar: real, lnRate: real, secRemaining: nat)
    requires Lawful(a) && pt > 0 && asset > 0 && scalar != 0.0 && secRemaining > 0
    ensures LnImpliedRate(a, pt, asset, scalar, FindRateAnchor(a, pt, asset, scalar, lnRate, secRemaining),
                          secRemaining) == lnRate
  {
    hide ReserveLogit;
    var t := Years(secRemaining);
    assert t > 0.0;
    assert a.ln(a.exp(lnRate * t)) == lnRate * t;
    QuotientExact(lnRate, t);
  }

  /** At its own reserves the curve reads the implied exchange rate, at every moment before expiry. */
  lemma AnchoredCurve(a: Analysis, pt: nat, asset: nat, scalar: real, lnRate: real, secRemaining: nat)
    requires pt > 0 && asset > 0 && scalar != 0.0
    ensures ExchangeRate(ReserveLogit(a, pt, asset), scalar, FindRateAnchor(a, pt, asset, scalar, lnRate, secRemaining))
         == ExchangeRateFromLn(a, lnRate, secRemaining)
  {
    hide ReserveLogit;
  }

  /**
   The price of PT converges: a positive implied rate is worth the whole rate a year before expiry, less every
   second after that, and par at expiry. The curve flattens as its scalar grows with the inverse of the time left.
   */
  lemma RatesConverge(a: Analysis, lnRate: real, early: nat, late: nat)
    requires Lawful(a) && lnRate > 0.0 && late < early
    ensures ExchangeRateFromLn(a, lnRate, late) < ExchangeRateFromLn(a, lnRate, early)
    ensures ExchangeRateFromLn(a, lnRate, 0) == 1.0 && a.ln(ExchangeRateFromLn(a, lnRate, YEAR_SEC)) == lnRate
    ensures FeeRate(a, lnRate, late) < FeeRate(a, lnRate, early)
    ensures FeeRate(a, lnRate, 0) == 1.0 && a.ln(FeeRate(a, lnRate, YEAR_SEC)) == lnRate
  {
    var s, t := Years(late), Years(early);
    YearsProduct(late);
    YearsProduct(early);
    assert Years(0) == 0.0 && Years(YEAR_SEC) == 1.0;
    if t <= s {
      MulMonoReal(YEAR_SEC as real, t, s);
      assert false;
    }
    MulStrictReal(lnRate, s, t, lnRate * s, lnRate * t);
    assert a.ln(a.exp(lnRate)) == lnRate;
  }

  lemma YearsProduct(sec: nat)
    ensures YEAR_SEC as real * Years(sec) == sec as real
  {
  }

  lemma ScalarProduct(root: real, sec: nat)
    requires sec > 0
    ensures RateScalar(root, sec) * sec as real == root * YEAR_SEC as real
  {
    QuotientTimes(root, Years(sec));
    YearsProduct(sec);
    Regroup(RateScalar(root, sec), Years(sec), YEAR_SEC as real);
  }

  // ---------- Monotonicity ----------

  lemma ExpRises(a: Analysis, x: real, y: real)
    requires Lawful(a) && x < y
    ensures a.exp(x) < a.exp(y)
  {
  }

  lemma LnMonotone(a: Analysis, x: real, y: real)
    requires Lawful(a) && 0.0 < x <= y
    ensures a.ln(x) <= a.ln(y)
  {
    if a.ln(y) < a.ln(x) {
      ExpRises(a, a.ln(y), a.ln(x));
    }
  }

  lemma OddsMonotone(p: real, q: real)
    requires 0.0 < p <= q < 1.0
    ensures 0.0 < p / (1.0 - p) <= q / (1.0 - q)
  {
    var x, y := p / (1.0 - p), q / (1.0 - q);
    QuotientTimes(p, 1.0 - p);
    QuotientTimes(q, 1.0 - q);
    CancelReal(1.0 - p, 0.0, x, 0.0, p);
    if x <= 0.0 {
      MulMonoReal(1.0 - p, x, 0.0);
    }
    OddsCross(p, q, x, y);
  }

  lemma OddsCross(p: real, q: real, x: real, y: real)
    requires 0.0 < p <= q < 1.0 && x * (1.0 - p) == p && y * (1.0 - q) == q && 0.0 < x
    ensures x <= y
  {
    var u, v := 1.0 - p, 1.0 - q;
    MulMonoReal(x, v, u);
    CancelReal(v, x, y, x * v, y * v);
  }

  lemma LogitMonotone(a: Analysis, p: real, q: real)
    requires Lawful(a) && 0.0 < p <= q < 1.0
    ensures Logit(a, p) <= Logit(a, q)
  {
    OddsMonotone(p, q);
    LnMonotone(a, p / (1.0 - p), q / (1.0 - q));
  }

  // ---------- Trading ----------

  /** The fee on a trade of `netAsset`: on what is received, or on what is paid. */
  function AssetFee(netAsset: real, feeRate: real): real
    requires feeRate >= 1.0
  {
    if netAsset > 0.0 then netAsset * (feeRate - 1.0) else -netAsset * (feeRate - 1.0) / feeRate
  }

  lemma AssetFeeNonNegative(netAsset: real, feeRate: real)
    requires feeRate >= 1.0
    ensures AssetFee(netAsset, feeRate) >= 0.0
  {
    if netAsset > 0.0 {
      MulMonoReal(netAsset, 0.0, feeRate - 1.0);
    } else {
      MulMonoReal(-netAsset, 0.0, feeRate - 1.0);
      var f := AssetFee(netAsset, feeRate);
      QuotientTimes(-netAsset * (feeRate - 1.0), feeRate);
      CancelReal(feeRate, 0.0, f, 0.0, feeRate * f);
    }
  }

  datatype CurveTrade = CurveTrade(rate: real, netAsset: real, fee: real)

  datatype CurveResult = Priced(trade: CurveTrade) | Rejected

  /**
   The trade of `netPt` against reserves of `pt` and `asset`. A rejected trade is one the library's
   assertions stop: the PT reserve would be emptied, PT would be worth at least the asset, or the fee
   rate is below one. A PT share of one or more has no logit; the f64 code then rejects the rate, or
   prices the trade at zero, which the trading handler rejects.
   */
  function Trade(a: Analysis, pt: nat, asset: nat, scalar: real, anchor: real, feeRate: real, netPt: int,
                 flash: bool): CurveResult
    requires pt + asset > 0 && scalar != 0.0
  {
    if netPt >= pt then Rejected
    else
      var p := (pt - netPt) as real / (pt + asset) as real;
      if p >= 1.0 then Rejected
      else
        var er := ExchangeRate(Logit(a, p), scalar, anchor);
        if er <= 1.0 || feeRate < 1.0 then Rejected
        else
          var preFee := -(netPt as real) / er;
          var fee := if flash then AssetFee(YtValue(er, netPt), feeRate) else AssetFee(preFee, feeRate);
          Priced(CurveTrade(er, preFee - fee, fee))
  }

  function Abs(x: int): nat {
    if x < 0 then -x else x
  }

  /** What the YT matching the traded PT is worth: during a flash swap the fee is taken on it. */
  function YtValue(er: real, netPt: int): real
    requires er > 1.0
  {
    (1.0 - 1.0 / er) * Abs(netPt) as real
  }

  /** The exchange rate a trade is priced at, relative to the implied one. */
  lemma RateAgainstImplied(a: Analysis, pt: nat, floor: nat, asset: nat, scalar: real, lnRate: real, sec: nat,
                           netPt: int, p: real)
    requires Lawful(a) && pt > 0 && netPt < pt && floor > 0 && scalar > 0.0
    requires if netPt > 0 then floor <= asset else asset == floor
    requires p == (pt - netPt) as real / (pt + asset) as real && p < 1.0
    ensures var er := ExchangeRate(Logit(a, p), scalar, FindRateAnchor(a, pt, floor, scalar, lnRate, sec));
            var implied := ExchangeRateFromLn(a, lnRate, sec);
            (netPt > 0 ==> er <= implied) && (netPt <= 0 ==> er >= implied)
  {
    var q := ProportionPt(pt as real, floor as real);
    ProportionBelowOne(pt as real, floor as real);
    SharePositive(pt - netPt, pt + asset);
    if netPt > 0 {
      ShareOrdered(pt - netPt, pt, pt + asset, pt + floor);
      LogitMonotone(a, p, q);
      ScaleOrdered(Logit(a, p), Logit(a, q), scalar);
    } else {
      ShareOrdered(pt, pt - netPt, pt + floor, pt + asset);
      LogitMonotone(a, q, p);
      ScaleOrdered(Logit(a, q), Logit(a, p), scalar);
    }
  }

  /**
   A buyer is never offered more than the implied exchange rate, a seller never less: the price moves against
   the trade.
   */
  lemma TradeAgainstImplied(a: Analysis, pt: nat, floor: nat, asset: nat, scalar: real, lnRate: real, sec: nat,
                            feeRate: real, netPt: int, flash: bool)
    requires Lawful(a) && pt > 0 && floor > 0 && scalar > 0.0
    requires if netPt > 0 then floor <= asset else asset == floor
    ensures var r := Trade(a, pt, asset, scalar, FindRateAnchor(a, pt, floor, scalar, lnRate, sec), feeRate, netPt,
                           flash);
            var implied := ExchangeRateFromLn(a, lnRate, sec);
            r.Priced? ==>
              var t := r.trade;
              && t.fee >= 0.0 && t.rate > 1.0
              && t.netAsset == -(netPt as real) / t.rate - t.fee
              && (netPt > 0 ==> t.rate <= implied) && (netPt <= 0 ==> t.rate >= implied)
  {
    hide AssetFee, YtValue, FindRateAnchor, Logit, ExchangeRate;
    var anchor := FindRateAnchor(a, pt, floor, scalar, lnRate, sec);
    if Trade(a, pt, asset, scalar, anchor, feeRate, netPt, flash).Priced? {
      var p := (pt - netPt) as real / (pt + asset) as real;
      RateAgainstImplied(a, pt, floor, asset, scalar, lnRate, sec, netPt, p);
      var er := ExchangeRate(Logit(a, p), scalar, anchor);
      AssetFeeNonNegative(YtValue(er, netPt), feeRate);
      AssetFeeNonNegative(-(netPt as real) / er, feeRate);
    }
  }

  /** The curve with this scalar and anchor reads `rate` at these reserves: their odds of PT are the exponential. */
  ghost predicate Reads(a: Analysis, scalar: real, anchor: real, rate: real, pt: real, asset: real) {
    a.exp((rate - anchor) * scalar) * asset == pt
  }

  /** Undoes the logarithm: the exchange rate puts the curve's odds at the odds of the share. */
  lemma RateSolvesCurve(a: Analysis, p: real, scalar: real, anchor: real)
    requires Lawful(a) && 0.0 < p < 1.0 && scalar != 0.0
    ensures var er := ExchangeRate(Logit(a, p), scalar, anchor);
            a.exp((er - anchor) * scalar) * (1.0 - p) == p
  {
    var odds := p / (1.0 - p);
    QuotientTimes(p, 1.0 - p);
    OddsMonotone(p, p);
    assert a.exp(a.ln(odds)) == odds;
    QuotientTimes(a.ln(odds), scalar);
  }

  /**
   A trade is priced where the curve reads the reserves after the PT has moved: there the odds of PT are the
   exponential of the distance from the anchor.
   */
  lemma TradePriceSolvesCurve(a: Analysis, pt: nat, asset: nat, scalar: real, anchor: real, feeRate: real, netPt: int,
                              flash: bool)
    requires Lawful(a) && pt + asset > 0 && scalar != 0.0
    ensures var r := Trade(a, pt, asset, scalar, anchor, feeRate, netPt, flash);
            r.Priced? ==>
              && netPt < pt && -netPt < asset
              && Reads(a, scalar, anchor, r.trade.rate, (pt - netPt) as real, (asset + netPt) as real)
  {
    hide Lawful, ExchangeRate, Logit, AssetFee, YtValue, Reads;
    if Trade(a, pt, asset, scalar, anchor, feeRate, netPt, flash).Priced? {
      var n, d := (pt - netPt) as real, (pt + asset) as real;
      SharePositive(pt - netPt, pt + asset);
      ShareReads(a, n, d, scalar, anchor);
      assert d - n == (asset + netPt) as real;
    }
  }

  lemma ShareReads(a: Analysis, n: real, d: real, scalar: real, anchor: real)
    requires Lawful(a) && d > 0.0 && 0.0 < n / d < 1.0 && scalar != 0.0
    ensures n < d && Reads(a, scalar, anchor, ExchangeRate(Logit(a, n / d), scalar, anchor), n, d - n)
  {
    var p := n / d;
    RateSolvesCurve(a, p, scalar, anchor);
    hide Lawful, ExchangeRate, Logit;
    QuotientTimes(n, d);
    OddsOfReserves(a.exp((ExchangeRate(Logit(a, p), scalar, anchor) - anchor) * scalar), p, n, d);
    BelowOne(n, d, p);
  }

  lemma OddsOfReserves(e: real, p: real, n: real, d: real)
    requires p * d == n && e * (1.0 - p) == p
    ensures e * (d - n) == n
  {
    assert d - n == (1.0 - p) * d;
    assert e * ((1.0 - p) * d) == e * (1.0 - p) * d;
  }

  lemma BelowOne(n: real, d: real, p: real)
    requires d > 0.0 && p * d == n && p < 1.0
    ensures n < d
  {
    MulStrictReal(d, p, 1.0, n, d);
  }

  /** At these reserves the odds of PT are above those at which one PT is worth one asset. */
  ghost predicate PtBelowAsset(a: Analysis, scalar: real, anchor: real, pt: real, asset: real) {
    a.exp((1.0 - anchor) * scalar) * asset < pt
  }

  /**
   A trade is priced exactly when it leaves PT in the reserve and takes less asset than there is, the fee rate is
   at least one, and the odds of PT it leaves are above those at which PT is worth one asset.
   */
  lemma PricedIff(a: Analysis, pt: nat, asset: nat, scalar: real, anchor: real, feeRate: real, netPt: int, flash: bool)
    requires Lawful(a) && pt + asset > 0 && scalar > 0.0
    ensures Trade(a, pt, asset, scalar, anchor, feeRate, netPt, flash).Priced?
            <==> && netPt < pt && -netPt < asset && feeRate >= 1.0
                 && PtBelowAsset(a, scalar, anchor, (pt - netPt) as real, (asset + netPt) as real)
  {
    hide Lawful, ExchangeRate, Logit, AssetFee, YtValue, Reads, PtBelowAsset;
    if netPt < pt {
      var n, d := (pt - netPt) as real, (pt + asset) as real;
      SharePositive(pt - netPt, pt + asset);
      BelowOneIff(n, d);
      assert d - n == (asset + netPt) as real;
      if -netPt < asset {
        ShareAboveOneIff(a, n, d, scalar, anchor);
      }
    }
  }

  lemma ShareAboveOneIff(a: Analysis, n: real, d: real, scalar: real, anchor: real)
    requires Lawful(a) && d > 0.0 && 0.0 < n / d < 1.0 && scalar > 0.0
    ensures ExchangeRate(Logit(a, n / d), scalar, anchor) > 1.0 <==> PtBelowAsset(a, scalar, anchor, n, d - n)
  {
    ShareReads(a, n, d, scalar, anchor);
    AboveOneIff(a, scalar, anchor, ExchangeRate(Logit(a, n / d), scalar, anchor), n, d - n);
  }

  lemma BelowOneIff(n: real, d: real)
    requires d > 0.0
    ensures n / d < 1.0 <==> n < d
  {
    QuotientTimes(n, d);
    if n / d < 1.0 {
      BelowOne(n, d, n / d);
    } else {
      MulMonoReal(d, 1.0, n / d);
    }
  }

  lemma AboveOneIff(a: Analysis, scalar: real, anchor: real, rate: real, pt: real, asset: real)
    requires Lawful(a) && scalar > 0.0 && asset > 0.0 && Reads(a, scalar, anchor, rate, pt, asset)
    ensures rate > 1.0 <==> PtBelowAsset(a, scalar, anchor, pt, asset)
  {
    var x, y := (1.0 - anchor) * scalar, (rate - anchor) * scalar;
    ScaledOrder(scalar, 1.0 - anchor, rate - anchor, x, y);
    if rate > 1.0 {
      ExpRises(a, x, y);
      MulStrictReal(asset, a.exp(x), a.exp(y), asset * a.exp(x), pt);
    } else {
      if x > y {
        ExpRises(a, y, x);
      }
      MulMonoReal(asset, a.exp(y), a.exp(x));
    }
  }

  /** The anchor at which the curve reads a rate at some reserves is the only one. */
  lemma AnchorUnique(a: Analysis, scalar: real, anchor: real, other: real, rate: real, pt: real, asset: real)
    requires Lawful(a) && scalar > 0.0 && asset > 0.0
    requires Reads(a, scalar, anchor, rate, pt, asset) && Reads(a, scalar, other, rate, pt, asset)
    ensures anchor == other
  {
    var x, y := (rate - anchor) * scalar, (rate - other) * scalar;
    CancelReal(asset, a.exp(x), a.exp(y), pt, pt);
    CancelReal(asset, a.exp(y), a.exp(x), pt, pt);
    assert a.ln(a.exp(x)) == x && a.ln(a.exp(y)) == y;
    ScaledOrder(scalar, rate - anchor, rate - other, x, y);
    ScaledOrder(scalar, rate - other, rate - anchor, y, x);
  }

  lemma ScaledOrder(scalar: real, p: real, q: real, x: real, y: real)
    requires scalar > 0.0 && x == p * scalar && y == q * scalar
    ensures p < q <==> x < y
  {
    if p < q {
      MulStrictReal(scalar, p, q, x, y);
    } else {
      MulMonoReal(scalar, q, p);
    }
  }

  /**
   The fee on a trade. A seller pays the fee rate's excess over one on what the PT fetch; a buyer pays the part
   of the price that the excess is of the fee rate; in a flash swap both pay the excess on the matching YT.
   */
  ghost predicate FeeCharged(t: CurveTrade, feeRate: real, netPt: int, flash: bool) {
    var n := Abs(netPt) as real;
    if flash then t.fee * t.rate == (t.rate - 1.0) * n * (feeRate - 1.0)
    else if netPt <= 0 then t.fee * t.rate == n * (feeRate - 1.0)
    else t.fee * t.rate * feeRate == n * (feeRate - 1.0)
  }

  lemma TradeFee(a: Analysis, pt: nat, asset: nat, scalar: real, anchor: real, feeRate: real, netPt: int, flash: bool)
    requires pt + asset > 0 && scalar != 0.0
    ensures var r := Trade(a, pt, asset, scalar, anchor, feeRate, netPt, flash);
            r.Priced? ==>
              && feeRate >= 1.0 && r.trade.rate > 1.0
              && (r.trade.netAsset + r.trade.fee) * r.trade.rate == -(netPt as real)
              && FeeCharged(r.trade, feeRate, netPt, flash)
  {
    hide Logit, ExchangeRate, AssetFee;
    var r := Trade(a, pt, asset, scalar, anchor, feeRate, netPt, flash);
    if r.Priced? {
      var er, x := r.trade.rate, -(netPt as real);
      QuotientTimes(x, er);
      if flash {
        YtFee(er, netPt, feeRate);
      } else if netPt < 0 {
        SaleFee(x, er, feeRate);
      } else {
        PurchaseFee(x, er, feeRate);
      }
    }
  }

  lemma SaleFee(x: real, er: real, feeRate: real)
    requires x > 0.0 && er > 0.0 && feeRate >= 1.0
    ensures AssetFee(x / er, feeRate) * er == x * (feeRate - 1.0)
  {
    var q := x / er;
    QuotientTimes(x, er);
    CancelReal(er, 0.0, q, 0.0, x);
    if q <= 0.0 {
      MulMonoReal(er, q, 0.0);
    }
    Regroup(q, feeRate - 1.0, er);
  }

  lemma PurchaseFee(x: real, er: real, feeRate: real)
    requires x <= 0.0 && er > 0.0 && feeRate >= 1.0
    ensures AssetFee(x / er, feeRate) * er * feeRate == -x * (feeRate - 1.0)
    ensures x == 0.0 ==> AssetFee(x / er, feeRate) * er == 0.0
  {
    var q, f := x / er, AssetFee(x / er, feeRate);
    QuotientTimes(x, er);
    CancelReal(er, q, 0.0, x, 0.0);
    QuotientTimes(-q * (feeRate - 1.0), feeRate);
    assert f * er * feeRate == f * feeRate * er;
    Regroup(-q, feeRate - 1.0, er);
  }

  lemma YtFee(er: real, netPt: int, feeRate: real)
    requires er > 1.0 && feeRate >= 1.0
    ensures AssetFee(YtValue(er, netPt), feeRate) * er == (er - 1.0) * Abs(netPt) as real * (feeRate - 1.0)
  {
    var n, y := Abs(netPt) as real, YtValue(er, netPt);
    QuotientTimes(1.0, er);
    var w := 1.0 - 1.0 / er;
    assert w * er == er - 1.0;
    assert y == w * n;
    Regroup(w, n, er);
    assert y * er == (er - 1.0) * n;
    CancelReal(er, 0.0, y, 0.0, (er - 1.0) * n) by { MulMonoReal(n, 0.0, er - 1.0); }
    if y > 0.0 {
      Regroup(y, feeRate - 1.0, er);
    } else {
      assert y == 0.0;
    }
  }

  lemma SharePositive(x: int, n: int)
    requires 0 < x && 0 < n
    ensures x as real / n as real > 0.0
  {
  }

  lemma ShareOrdered(x: int, y: int, n: int, m: int)
    requires 0 < x <= y && 0 < m <= n
    ensures x as real / n as real <= y as real / m as real
  {
    var a, b := x as real / n as real, y as real / m as real;
    QuotientTimes(x as real, n as real);
    QuotientTimes(y as real, m as real);
    SharePositive(y, m);
    MulMonoReal(b, m as real, n as real);
    CancelReal(n as real, a, b, x as real, n as real * b);
  }

  lemma ScaleOrdered(x: real, y: real, scalar: real)
    requires scalar > 0.0 && x <= y
    ensures x / scalar <= y / scalar
  {
    QuotientTimes(x, scalar);
    QuotientTimes(y, scalar);
    CancelReal(scalar, x / scalar, y / scalar, x, y);
  }

  // ---------- Liquidity ----------

  datatype Added = Added(lpOut: nat, syIn: nat, ptIn: nat)

  /** What `x` LP tokens need of a reserve, rounded up unless the excess is below one part in the LP supply. */
  function NeededFor(x: real, reserve: nat, totalLp: nat): nat
    requires totalLp > 0
  {
    ToU64((reserve as real * x + totalLp as real - 1.0) / totalLp as real)
  }

  /** The LP tokens an intent buys, limited by the scarcer side, and what is taken of each side. */
  function AddLiquidity(intentSy: nat, intentPt: nat, totalLp: nat, totalSy: nat, totalPt: nat): Added
    requires totalLp > 0 && totalSy > 0 && totalPt > 0
  {
    var fromPt := totalLp as real * intentPt as real / totalPt as real;
    var fromSy := totalLp as real * intentSy as real / totalSy as real;
    if fromPt < fromSy then Added(ToU64(fromPt), NeededFor(fromPt, totalSy, totalLp), intentPt)
    else Added(ToU64(fromSy), intentSy, NeededFor(fromSy, totalPt, totalLp))
  }

  /** A reserve's share of some LP tokens, rounded down. */
  function ShareOf(lpIn: nat, totalLp: nat, reserve: nat): nat
    requires totalLp > 0
  {
    ToU64(reserve as real * lpIn as real / totalLp as real)
  }

  lemma NeededBounds(x: real, reserve: nat, totalLp: nat, limit: nat)
    requires totalLp > 0 && x >= 0.0
    requires reserve as real * x <= limit as real * totalLp as real
    ensures NeededFor(x, reserve, totalLp) <= limit
    ensures reserve * ToU64(x) <= NeededFor(x, reserve, totalLp) * totalLp
  {
    var need, r, n := reserve as real * x, reserve as real, NeededFor(x, reserve, totalLp);
    MulMonoReal(r, 0.0, x);
    NeededFloor(x, reserve, totalLp);
    FloorBelow(x);
    MulMonoReal(r, ToU64(x) as real, x);
    hide ToU64, NeededFor;
    NeededIntegers(n, reserve, ToU64(x), totalLp, limit, need);
  }

  lemma FloorBelow(x: real)
    requires x >= 0.0
    ensures ToU64(x) as real <= x < ToU64(x) as real + 1.0
  {
  }

  lemma NeededIntegers(n: nat, reserve: nat, lpOut: nat, totalLp: nat, limit: nat, need: real)
    requires totalLp > 0
    requires n as real * totalLp as real <= need + totalLp as real - 1.0 < n as real * totalLp as real + totalLp as real
    requires reserve as real * lpOut as real <= need <= limit as real * totalLp as real
    ensures n <= limit && reserve * lpOut <= n * totalLp
  {
    RealProduct(n, totalLp);
    RealProduct(reserve, lpOut);
    RealProduct(limit, totalLp);
    NeededOrder(n, totalLp, limit, n * totalLp, reserve * lpOut, limit * totalLp, need);
  }

  lemma RealProduct(x: int, y: int)
    ensures (x * y) as real == x as real * y as real
  {
  }

  lemma NeededOrder(n: nat, totalLp: nat, limit: nat, nl: nat, rl: nat, ll: nat, need: real)
    requires totalLp > 0 && nl == n * totalLp && ll == limit * totalLp
    requires nl as real <= need + totalLp as real - 1.0 < nl as real + totalLp as real
    requires rl as real <= need <= ll as real
    ensures n <= limit && rl <= nl
  {
    if n > limit {
      MulMono(limit + 1, n, totalLp);
    }
  }

  /** The floor of a quotient, multiplied back. */
  lemma QuotientFloor(q: real, d: real, x: real, n: nat)
    requires d > 0.0 && q >= 0.0 && q * d == x && n == ToU64(q)
    ensures n as real * d <= x < n as real * d + d
  {
    var m := n as real;
    FloorBelow(q);
    MulMonoReal(d, m, q);
    DistributeReal(d, m, 1.0);
    MulStrictReal(d, q, m + 1.0, x, m * d + d);
  }

  lemma ScaledIntent(totalLp: nat, intent: nat, reserve: nat)
    requires reserve > 0
    ensures var x := totalLp as real * intent as real / reserve as real;
            && x >= 0.0 && x * reserve as real == totalLp as real * intent as real
            && reserve * ToU64(x) <= intent * totalLp
  {
    var x := totalLp as real * intent as real / reserve as real;
    QuotientTimes(totalLp as real * intent as real, reserve as real);
    assert (totalLp * intent) as real == totalLp as real * intent as real;
    CancelReal(reserve as real, 0.0, x, 0.0, (totalLp * intent) as real);
    MulMonoReal(reserve as real, ToU64(x) as real, x);
    assert (reserve * ToU64(x)) as real == reserve as real * ToU64(x) as real;
  }

  /** Adding liquidity takes at most the two intents, and on each side at least the share its LP tokens stand for. */
  lemma AddLiquidityBounds(intentSy: nat, intentPt: nat, totalLp: nat, totalSy: nat, totalPt: nat)
    requires totalLp > 0 && totalSy > 0 && totalPt > 0
    ensures var r := AddLiquidity(intentSy, intentPt, totalLp, totalSy, totalPt);
            && r.syIn <= intentSy && r.ptIn <= intentPt
            && totalSy * r.lpOut <= r.syIn * totalLp
            && totalPt * r.lpOut <= r.ptIn * totalLp
  {
    hide NeededFor, ToU64;
    ScaledIntent(totalLp, intentPt, totalPt);
    ScaledIntent(totalLp, intentSy, totalSy);
    var fromPt := totalLp as real * intentPt as real / totalPt as real;
    var fromSy := totalLp as real * intentSy as real / totalSy as real;
    if fromPt < fromSy {
      MulMonoReal(totalSy as real, fromPt, fromSy);
      assert totalSy as real * fromSy == intentSy as real * totalLp as real;
      NeededBounds(fromPt, totalSy, totalLp, intentSy);
    } else {
      MulMonoReal(totalPt as real, fromSy, fromPt);
      assert totalPt as real * fromPt == intentPt as real * totalLp as real;
      NeededBounds(fromSy, totalPt, totalLp, intentPt);
    }
  }

  /** The amount needed of a reserve exceeds what the tokens need by less than one token's worth and one unit. */
  lemma NeededAtMost(x: real, reserve: nat, totalLp: nat)
    requires totalLp > 0 && reserve > 0 && x >= 0.0
    ensures NeededFor(x, reserve, totalLp) * totalLp < reserve * (ToU64(x) + 1) + totalLp
  {
    var r, top := reserve as real, ToU64(x) + 1;
    MulMonoReal(r, 0.0, x);
    NeededFloor(x, reserve, totalLp);
    FloorBelow(x);
    hide ToU64, NeededFor;
    MulStrictReal(r, x, top as real, r * x, r * top as real);
    RealProduct(NeededFor(x, reserve, totalLp), totalLp);
    RealProduct(reserve, top);
    BelowBoth(NeededFor(x, reserve, totalLp) * totalLp, reserve * top, totalLp, r * x);
  }

  lemma NeededFloor(x: real, reserve: nat, totalLp: nat)
    requires totalLp > 0 && reserve as real * x >= 0.0
    ensures var n, lp, need := NeededFor(x, reserve, totalLp) as real, totalLp as real, reserve as real * x;
            n * lp <= need + lp - 1.0 < n * lp + lp
  {
    var up, lp := reserve as real * x + totalLp as real - 1.0, totalLp as real;
    var q := up / lp;
    QuotientTimes(up, lp);
    CancelReal(lp, 0.0, q, 0.0, up);
    QuotientFloor(q, lp, up, ToU64(q));
  }

  lemma BelowBoth(nl: int, rt: int, totalLp: nat, need: real)
    requires nl as real <= need + totalLp as real - 1.0 && need < rt as real
    ensures nl < rt + totalLp
  {
  }

  /** The LP tokens one side's intent buys: the most whose share of the reserve the intent covers. */
  lemma IntentBuys(totalLp: nat, intent: nat, reserve: nat)
    requires totalLp > 0 && reserve > 0
    ensures var x := totalLp as real * intent as real / reserve as real;
            && x >= 0.0
            && intent * totalLp < reserve * (ToU64(x) + 1)
            && forall k: nat :: k <= ToU64(x) <==> k * reserve <= intent * totalLp
  {
    ScaledIntent(totalLp, intent, reserve);
    var x, r := totalLp as real * intent as real / reserve as real, reserve as real;
    FloorBelow(x);
    var out := ToU64(x);
    hide ToU64;
    MulStrictReal(r, x, (out + 1) as real, r * x, r * (out + 1) as real);
    RealProduct(reserve, out + 1);
    RealProduct(intent, totalLp);
    forall k: nat ensures k <= out <==> k * reserve <= intent * totalLp {
      if k <= out {
        MulMono(k, out, reserve);
      } else {
        MulMono(out + 1, k, reserve);
      }
    }
  }

  /**
   A depositor gets the most LP tokens both intents cover the share of, and neither side takes as much as the
   share of one token more, rounded up.
   */
  lemma AddLiquidityFair(intentSy: nat, intentPt: nat, totalLp: nat, totalSy: nat, totalPt: nat)
    requires totalLp > 0 && totalSy > 0 && totalPt > 0
    ensures FairlyAdded(AddLiquidity(intentSy, intentPt, totalLp, totalSy, totalPt), intentSy, intentPt, totalLp,
                        totalSy, totalPt)
  {
    IntentBuys(totalLp, intentPt, totalPt);
    IntentBuys(totalLp, intentSy, totalSy);
    var fromPt := totalLp as real * intentPt as real / totalPt as real;
    var fromSy := totalLp as real * intentSy as real / totalSy as real;
    if fromPt < fromSy {
      NeededAtMost(fromPt, totalSy, totalLp);
      FloorOrdered(fromPt, fromSy);
    } else {
      NeededAtMost(fromSy, totalPt, totalLp);
      FloorOrdered(fromSy, fromPt);
    }
    hide NeededFor, ToU64;
  }

  ghost predicate FairlyAdded(r: Added, intentSy: nat, intentPt: nat, totalLp: nat, totalSy: nat, totalPt: nat) {
    && r.syIn * totalLp < totalSy * (r.lpOut + 1) + totalLp
    && r.ptIn * totalLp < totalPt * (r.lpOut + 1) + totalLp
    && forall k: nat :: k <= r.lpOut <==> k * totalPt <= intentPt * totalLp && k * totalSy <= intentSy * totalLp
  }

  lemma FloorOrdered(x: real, y: real)
    requires x <= y
    ensures ToU64(x) <= ToU64(y)
  {
  }

  /** A share is the exact one rounded down. */
  lemma ShareBounds(lpIn: nat, totalLp: nat, reserve: nat)
    requires totalLp > 0
    ensures ShareOf(lpIn, totalLp, reserve) * totalLp
            <= reserve * lpIn < ShareOf(lpIn, totalLp, reserve) * totalLp + totalLp
  {
    var q, n := reserve as real * lpIn as real / totalLp as real, ShareOf(lpIn, totalLp, reserve);
    QuotientTimes(reserve as real * lpIn as real, totalLp as real);
    assert (reserve * lpIn) as real == reserve as real * lpIn as real;
    CancelReal(totalLp as real, 0.0, q, 0.0, (reserve * lpIn) as real);
    QuotientFloor(q, totalLp as real, (reserve * lpIn) as real, n);
    assert (n * totalLp) as real == n as real * totalLp as real;
  }
}
