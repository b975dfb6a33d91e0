/** What traders pay and receive, and what depositors get: every amount bounded on both sides. */
module MarketPricing {
  import opened Foundations
  import opened Numbers
  import opened CeilRounding
  import opened RealFacts
  import opened TimeCurve
  import opened Markets
  import opened MarketTrades
  import LiquidityLimits

  // ---------- From asset to SY ----------

  /**
   A trader's change of SY is worth the change of asset, rounded against the trader by at most one SY and less than
   one asset.
   */
  predicate SettledAt(netAsset: real, sy: int, rate: Number)
    requires rate > 0
  {
    if netAsset < 0.0 then
      && sy <= 0
      && BasePerSy(rate) * (0 - sy) as real + PaymentSlack(AssetUnits(netAsset), rate) >= -netAsset
      && BasePerSy(rate) * (0 - sy - 1) as real < -netAsset + 1.0
    else
      && sy >= 0
      && BasePerSy(rate) * sy as real <= netAsset < BasePerSy(rate) * (sy + 1) as real + 1.0
  }

  lemma WorthInteger(asset: int, sy: int, rate: nat)
    ensures BasePerSy(rate) * sy as real <= asset as real <==> sy * rate <= asset * ONE
  {
    assert (rate * sy) as real == rate as real * sy as real;
    var r, s := rate as real, sy as real;
    assert r / ONE as real * s == r * s / ONE as real;
    assert sy * rate == rate * sy;
  }

  lemma UnitsOf(netAsset: real)
    ensures netAsset < 0.0 ==> (AssetUnits(netAsset) - 1) as real < -netAsset <= AssetUnits(netAsset) as real
    ensures netAsset >= 0.0 ==> AssetUnits(netAsset) as real <= netAsset < (AssetUnits(netAsset) + 1) as real
  {
  }

  lemma CeilAtMost(asset: nat, rate: Number)
    requires rate > 0
    ensures BasePerSy(rate) * (SyCeil(asset, rate) - 1) as real <= asset as real
  {
    CeilDivIs(FromNatural(asset), rate);
    DivBounds(asset * ONE, rate);
    hide Ceil, Div;
    var q := asset * ONE / rate;
    DivAtLeast(asset * ONE, rate, 0);
    MulMono(SyCeil(asset, rate) - 1, q, rate);
    WorthInteger(asset, SyCeil(asset, rate) - 1, rate);
  }

  lemma FloorAtLeast(asset: nat, rate: Number)
    requires rate > 0
    ensures BasePerSy(rate) * SyFloor(asset, rate) as real <= asset as real
    ensures asset as real < BasePerSy(rate) * (SyFloor(asset, rate) + 1) as real
  {
    FloorDivExact(FromNatural(asset), rate);
    DivBounds(asset * ONE, rate);
    hide Floor, Div;
    var q := SyFloor(asset, rate);
    Distribute(rate, q, 1);
    WorthInteger(asset, q, rate);
    WorthInteger(asset, q + 1, rate);
  }

  lemma SettledSy(netAsset: real, rate: Number)
    requires rate > 0
    ensures SettledAt(netAsset, NetTraderSy(netAsset, rate), rate)
  {
    hide SyCeil, SyFloor, BasePerSy, PaymentSlack;
    var asset := AssetUnits(netAsset);
    UnitsOf(netAsset);
    if netAsset < 0.0 {
      BuyerPays(netAsset, rate);
      CeilAtMost(asset, rate);
      assert NetTraderSy(netAsset, rate) == 0 - SyCeil(asset, rate);
    } else {
      FloorAtLeast(asset, rate);
      assert NetTraderSy(netAsset, rate) == SyFloor(asset, rate);
    }
  }

  /** The treasury's part of the fee, rounded down twice. */
  predicate CutOf(fee: real, cut: nat, feeSy: nat, rate: Number, bps: nat) {
    && BasePerSy(rate) * feeSy as real <= fee < BasePerSy(rate) * (feeSy + 1) as real
    && cut * 10_000 <= feeSy * bps < cut * 10_000 + 10_000
  }

  lemma CutBounds(fee: real, rate: Number, bps: nat)
    requires rate > 0 && fee >= 0.0
    ensures SyFee(fee, rate) * bps / 10_000 >= 0
    ensures CutOf(fee, SyFee(fee, rate) * bps / 10_000, SyFee(fee, rate), rate, bps)
  {
    var b, n := BasePerSy(rate), SyFee(fee, rate);
    var q := fee / b;
    QuotientTimes(fee, b);
    CancelReal(b, 0.0, q, 0.0, fee);
    FloorBelow(q);
    MulMonoReal(b, n as real, q);
    MulStrictReal(b, q, (n + 1) as real, b * q, b * (n + 1) as real);
    DivBounds(n * bps, 10_000);
    DivAtLeast(n * bps, 10_000, 0);
  }

  // ---------- The price and the fee ----------

  /**
   `t` is the trade the curve offers: anchored where it reads the implied rate at the reserves before the trade,
   priced where it reads the reserves after the PT has moved, and charged the fee of its side.
   */
  ghost predicate OnCurve(a: Analysis, pt: nat, floor: nat, asset: nat, scalar: real, implied: real, feeRate: real,
                          netPt: int, flash: bool, t: CurveTrade, anchor: real) {
    && Reads(a, scalar, anchor, implied, pt as real, floor as real)
    && Reads(a, scalar, anchor, t.rate, (pt - netPt) as real, (asset + netPt) as real)
    && t.rate > 1.0 && t.fee >= 0.0
    && (if netPt > 0 then t.rate <= implied else t.rate >= implied)
    && (t.netAsset + t.fee) * t.rate == -(netPt as real)
    && FeeCharged(t, feeRate, netPt, flash)
  }

  /** The same of a market: the SY reserve counts in asset, rounded up for a buyer and down for a seller. */
  ghost predicate Offered(a: Analysis, m: Market, rate: Number, netPt: int, now: nat, t: CurveTrade, anchor: real)
    requires SecRemaining(m.fin, now) > 0
  {
    var sec, worth := SecRemaining(m.fin, now), AssetBalance(m.fin, rate);
    OnCurve(a, VPt(m.fin), Floor(worth), if netPt > 0 then Ceil(worth) else Floor(worth),
            RateScalar(m.fin.rateScalarRoot, sec), Implied(a, m, now), FeeRate(a, m.fin.lnFeeRateRoot, sec), netPt,
            m.flashSwap, t, anchor)
  }

  lemma TradeOnCurve(a: Analysis, pt: nat, floor: nat, asset: nat, scalar: real, lnRate: real, sec: nat, feeRate: real,
                     netPt: int, flash: bool)
    requires Lawful(a) && pt > 0 && floor > 0 && scalar > 0.0
    requires if netPt > 0 then floor <= asset else asset == floor
    ensures var anchor := FindRateAnchor(a, pt, floor, scalar, lnRate, sec);
            var r := Trade(a, pt, asset, scalar, anchor, feeRate, netPt, flash);
            var implied := ExchangeRateFromLn(a, lnRate, sec);
            r.Priced? ==> OnCurve(a, pt, floor, asset, scalar, implied, feeRate, netPt, flash, r.trade, anchor)
  {
    hide Lawful, FindRateAnchor, ExchangeRateFromLn, Trade, FeeCharged, Reads;
    var anchor := FindRateAnchor(a, pt, floor, scalar, lnRate, sec);
    AnchorSolves(a, pt, floor, scalar, lnRate, sec);
    TradeAgainstImplied(a, pt, floor, asset, scalar, lnRate, sec, feeRate, netPt, flash);
    TradePriceSolvesCurve(a, pt, asset, scalar, anchor, feeRate, netPt, flash);
    TradeFee(a, pt, asset, scalar, anchor, feeRate, netPt, flash);
  }

  lemma AnchorSolves(a: Analysis, pt: nat, asset: nat, scalar: real, lnRate: real, sec: nat)
    requires Lawful(a) && pt > 0 && asset > 0 && scalar != 0.0
    ensures Reads(a, scalar, FindRateAnchor(a, pt, asset, scalar, lnRate, sec), ExchangeRateFromLn(a, lnRate, sec),
                  pt as real, asset as real)
  {
    AnchoredCurve(a, pt, asset, scalar, lnRate, sec);
    CurveAtReserves(a, pt, asset, scalar, FindRateAnchor(a, pt, asset, scalar, lnRate, sec));
    hide Lawful, FindRateAnchor, ExchangeRateFromLn, ExchangeRate, ReserveLogit, Reads;
  }

  lemma CurveAtReserves(a: Analysis, pt: nat, asset: nat, scalar: real, anchor: real)
    requires Lawful(a) && pt > 0 && asset > 0 && scalar != 0.0
    ensures Reads(a, scalar, anchor, ExchangeRate(ReserveLogit(a, pt, asset), scalar, anchor), pt as real,
                  asset as real)
  {
    ProportionBelowOne(pt as real, asset as real);
    ShareReads(a, pt as real, pt as real + asset as real, scalar, anchor);
    hide Lawful, ExchangeRate, Logit, Reads;
  }

  lemma QuoteOffered(a: Analysis, m: Market, rate: Number, netPt: int, now: nat)
    returns (t: CurveTrade, anchor: real)
    requires Lawful(a) && WellConfigured(m) && rate > 0 && Quote(a, m, rate, netPt, now).Ok?
    ensures SecRemaining(m.fin, now) > 0 && Offered(a, m, rate, netPt, now, t, anchor)
    ensures Quote(a, m, rate, netPt, now).value
         == TradeResult(netPt, NetTraderSy(t.netAsset, rate), SyFee(t.fee, rate),
                        SyFee(t.fee, rate) * m.feeTreasuryBps / 10_000)
  {
    var sec, floor := SecRemaining(m.fin, now), Floor(AssetBalance(m.fin, rate));
    var asset := if netPt > 0 then Ceil(AssetBalance(m.fin, rate)) else floor;
    FloorUpToCeil(AssetBalance(m.fin, rate));
    hide Floor, Ceil, AssetBalance, NetTraderSy, SyFee, ExchangeRateFromLn, FeeRate, FindRateAnchor, RateScalar, Lawful;
    ScalarNonZero(m.fin.rateScalarRoot, sec);
    var scalar := RateScalar(m.fin.rateScalarRoot, sec);
    anchor := FindRateAnchor(a, VPt(m.fin), floor, scalar, m.fin.lastLnImpliedRate, sec);
    var feeRate := FeeRate(a, m.fin.lnFeeRateRoot, sec);
    TradeOnCurve(a, VPt(m.fin), floor, asset, scalar, m.fin.lastLnImpliedRate, sec, feeRate, netPt, m.flashSwap);
    hide Trade, OnCurve;
    t := Trade(a, VPt(m.fin), asset, scalar, anchor, feeRate, netPt, m.flashSwap).trade;
  }

  /**
   What an accepted trade moves. The trader gets or gives `netPt` PT; the SY that comes back or goes in is worth what
   the curve offers after the fee, rounded against the trader by at most one SY and less than one asset; the reserve
   gives up that SY and the treasury's part of the fee.
   */
  lemma TraderPays(a: Analysis, m: Market, netPt: int, syConstraint: int, now: nat, rate: Number)
    returns (t: CurveTrade, anchor: real, sy: int, cut: nat, feeSy: nat)
    requires Lawful(a) && WellConfigured(m) && TradePt(a, m, netPt, syConstraint, now, rate).Ok?
    ensures rate > 0 && SecRemaining(m.fin, now) > 0
    ensures Offered(a, m, rate, netPt, now, t, anchor)
    ensures SettledAt(t.netAsset, sy, rate) && sy >= syConstraint && (if netPt > 0 then sy < 0 else sy > 0)
    ensures CutOf(t.fee, cut, feeSy, rate, m.feeTreasuryBps)
    ensures var f := TradePt(a, m, netPt, syConstraint, now, rate).value.fin;
            f.pt == m.fin.pt - netPt && f.sy == m.fin.sy - sy - cut
  {
    hide TradePt, Quote, NetTraderSy, SyFee, Offered;
    AppliedTrade(a, m, netPt, syConstraint, now, rate);
    t, anchor := QuoteOffered(a, m, rate, netPt, now);
    OfferedFee(a, m, rate, netPt, now, t, anchor);
    SettledSy(t.netAsset, rate);
    CutBounds(t.fee, rate, m.feeTreasuryBps);
    sy, feeSy := NetTraderSy(t.netAsset, rate), SyFee(t.fee, rate);
    cut := feeSy * m.feeTreasuryBps / 10_000;
  }

  lemma OfferedFee(a: Analysis, m: Market, rate: Number, netPt: int, now: nat, t: CurveTrade, anchor: real)
    requires SecRemaining(m.fin, now) > 0 && Offered(a, m, rate, netPt, now, t, anchor)
    ensures t.fee >= 0.0
  {
  }

  /** A quoted trade pays what the curve offers, within rounding, and the treasury its part of the fee. */
  ghost predicate PaidOnCurve(a: Analysis, m: Market, rate: Number, netPt: int, now: nat, r: TradeResult) {
    && rate > 0 && SecRemaining(m.fin, now) > 0
    && exists t, anchor :: Offered(a, m, rate, netPt, now, t, anchor)
                           && SettledAt(t.netAsset, r.netSy, rate)
                           && CutOf(t.fee, r.treasuryFee, r.syFee, rate, m.feeTreasuryBps)
  }

  lemma QuotePaysCurve(a: Analysis, m: Market, rate: Number, netPt: int, now: nat)
    requires Lawful(a) && WellConfigured(m) && rate > 0 && Quote(a, m, rate, netPt, now).Ok?
    ensures PaidOnCurve(a, m, rate, netPt, now, Quote(a, m, rate, netPt, now).value)
  {
    hide Quote, NetTraderSy, SyFee, Offered, SettledAt;
    var t, anchor := QuoteOffered(a, m, rate, netPt, now);
    OfferedFee(a, m, rate, netPt, now, t, anchor);
    SettledSy(t.netAsset, rate);
    CutBounds(t.fee, rate, m.feeTreasuryBps);
    hide CutOf;
  }

  // ---------- What trades, deposits and withdrawals accept ----------

  /**
   A trade is accepted exactly when the curve quotes it, the SY moves the other way and meets the slippage bound,
   the reserves hold what leaves them, and what is left of the SY is worth one asset.
   */
  lemma TradeAcceptedIff(a: Analysis, m: Market, netPt: int, syConstraint: int, now: nat, rate: Number)
    requires Lawful(a) && WellConfigured(m)
    ensures TradePt(a, m, netPt, syConstraint, now, rate).Ok?
            <==> && rate > 0 && Quote(a, m, rate, netPt, now).Ok?
                 && var t := Quote(a, m, rate, netPt, now).value;
                 && Opposed(t)
                 && t.netSy >= syConstraint
                 && netPt <= m.fin.pt && t.netSy + t.treasuryFee <= m.fin.sy
                 && (VSy(m.fin) - t.netSy - t.treasuryFee) * rate >= ONE
  {
    hide Quote, ApplyTrade, Lawful;
    if rate > 0 && Quote(a, m, rate, netPt, now).Ok? {
      QuoteNet(a, m, rate, netPt, now);
      QuoteInTime(a, m, rate, netPt, now);
      var t := Quote(a, m, rate, netPt, now).value;
      if Opposed(t) {
        AppliedIff(a, m.fin, rate, now, t);
      }
    }
  }

  /** PT and SY move in opposite directions. */
  predicate Opposed(t: TradeResult) {
    if t.netPt > 0 then t.netSy < 0 else t.netPt < 0 && t.netSy > 0
  }

  lemma AppliedIff(a: Analysis, f: Financials, rate: Number, now: nat, t: TradeResult)
    requires rate > 0 && SecRemaining(f, now) > 0 && f.rateScalarRoot != 0.0 && Opposed(t)
    ensures ApplyTrade(a, f, rate, now, t).Ok?
            <==> && t.netPt <= f.pt && t.netSy + t.treasuryFee <= f.sy
                 && (VSy(f) - t.netSy - t.treasuryFee) * rate >= ONE
  {
    if t.netPt <= f.pt && t.netSy + t.treasuryFee <= f.sy {
      WorthOneIff(f.(pt := f.pt - t.netPt, sy := f.sy - t.netSy - t.treasuryFee), rate);
    }
    hide AssetBalance, Floor, FindRateAnchor, LnImpliedRate, RateScalar;
  }

  lemma QuoteInTime(a: Analysis, m: Market, rate: Number, netPt: int, now: nat)
    requires rate > 0 && Quote(a, m, rate, netPt, now).Ok?
    ensures SecRemaining(m.fin, now) > 0 && m.fin.rateScalarRoot != 0.0
  {
  }

  lemma WorthOneIff(f: Financials, rate: Number)
    ensures Floor(AssetBalance(f, rate)) > 0 <==> VSy(f) * rate >= ONE
  {
    assert AssetBalance(f, rate) == Mul(rate, FromNatural(VSy(f))) by {
      assert FromNatural(VSy(f)) * rate == rate * FromNatural(VSy(f));
    }
    FloorMulNatural(rate, VSy(f));
    assert rate * VSy(f) == VSy(f) * rate;
  }

  /** The SY reserve in asset as a trade counts it. */
  function CountedAsset(m: Market, rate: Number, netPt: int): nat {
    if netPt > 0 then Ceil(AssetBalance(m.fin, rate)) else Floor(AssetBalance(m.fin, rate))
  }

  /**
   With the curve anchored at the implied rate, a quote is given exactly when the trade leaves PT in the virtual
   reserve and takes less asset than there is, the fee rate is at least one, and the odds of PT it leaves are
   above those at which PT is worth one asset.
   */
  lemma QuoteGivenIff(a: Analysis, m: Market, rate: Number, netPt: int, now: nat, anchor: real)
    requires Lawful(a) && WellConfigured(m) && rate > 0 && now < m.fin.expirationTs && VSy(m.fin) * rate >= ONE
    requires Reads(a, RateScalar(m.fin.rateScalarRoot, SecRemaining(m.fin, now)), anchor, Implied(a, m, now),
                   VPt(m.fin) as real, Floor(AssetBalance(m.fin, rate)) as real)
    ensures var sec, pt, asset := SecRemaining(m.fin, now), VPt(m.fin), CountedAsset(m, rate, netPt);
            Quote(a, m, rate, netPt, now).Ok?
            <==> && netPt < pt && -netPt < asset && FeeRate(a, m.fin.lnFeeRateRoot, sec) >= 1.0
                 && PtBelowAsset(a, RateScalar(m.fin.rateScalarRoot, sec), anchor, (pt - netPt) as real,
                                 (asset + netPt) as real)
  {
    hide Lawful, FeeRate, FindRateAnchor, RateScalar, Floor, Ceil, AssetBalance, Reads, ExchangeRateFromLn, SyFee,
         NetTraderSy, PtBelowAsset;
    var sec, floor := SecRemaining(m.fin, now), Floor(AssetBalance(m.fin, rate));
    WorthOneIff(m.fin, rate);
    FloorUpToCeil(AssetBalance(m.fin, rate));
    ScalarNonZero(m.fin.rateScalarRoot, sec);
    var scalar := RateScalar(m.fin.rateScalarRoot, sec);
    AnchorSolves(a, VPt(m.fin), floor, scalar, m.fin.lastLnImpliedRate, sec);
    AnchorUnique(a, scalar, anchor, FindRateAnchor(a, VPt(m.fin), floor, scalar, m.fin.lastLnImpliedRate, sec),
                 Implied(a, m, now), VPt(m.fin) as real, floor as real);
    PricedIff(a, VPt(m.fin), CountedAsset(m, rate, netPt), scalar, anchor, FeeRate(a, m.fin.lnFeeRateRoot, sec), netPt,
              m.flashSwap);
    hide Trade;
  }

  /** The limits' window an operation at `now` falls in. */
  function WindowAt(m: Market, now: nat): NetLimits {
    OpenWindow(m.limits, now, m.lpSupply)
  }

  /**
   A deposit is accepted exactly when the market has not expired, the intents cover the share of the least LP
   asked for on both sides, and what is minted fits the window's limits and the maximum supply.
   */
  lemma DepositAcceptedIff(m: Market, ptIntent: nat, syIntent: nat, minLpOut: nat, now: nat)
    ensures var lp := m.lpSupply + AddTo(m, syIntent, ptIntent).lpOut;
            DepositLiquidity(m, ptIntent, syIntent, minLpOut, now).Ok?
            <==> && now <= m.fin.expirationTs
                 && minLpOut * VPt(m.fin) <= ptIntent * VLp(m.lpSupply)
                 && minLpOut * VSy(m.fin) <= syIntent * VLp(m.lpSupply)
                 && LiquidityLimits.WithinBps(WindowAt(m, now), lp) && lp <= m.maxLpSupply
  {
    var r := AddTo(m, syIntent, ptIntent);
    AddLiquidityFair(syIntent, ptIntent, VLp(m.lpSupply), VSy(m.fin), VPt(m.fin));
    LiquidityLimits.AcceptedIff(m.limits, now, m.lpSupply, r.lpOut);
    hide AddLiquidity, VerifyLimits, LiquidityLimits.WithinBps;
    assert minLpOut <= r.lpOut <==> && minLpOut * VPt(m.fin) <= ptIntent * VLp(m.lpSupply)
                                    && minLpOut * VSy(m.fin) <= syIntent * VLp(m.lpSupply);
  }

  lemma OutAtLeastIff(lpIn: nat, lp: nat, reserve: nat, least: nat)
    requires lp > 0
    ensures least <= ShareOf(lpIn, lp, reserve) <==> least * lp <= reserve * lpIn
  {
    var out := ShareOf(lpIn, lp, reserve);
    ShareBounds(lpIn, lp, reserve);
    hide ShareOf;
    if least <= out {
      MulMono(least, out, lp);
    } else {
      MulMono(out + 1, least, lp);
    }
  }

  /**
   A withdrawal is accepted exactly when the supply covers it, the supply left is within the window's limits, and
   on both sides the share of the virtual reserve, and the real reserve, cover the least asked for.
   */
  lemma WithdrawAcceptedIff(m: Market, lpIn: nat, minPtOut: nat, minSyOut: nat, now: nat)
    ensures WithdrawLiquidity(m, lpIn, minPtOut, minSyOut, now).Ok?
            <==> && lpIn <= m.lpSupply && LiquidityLimits.WithinBps(WindowAt(m, now), m.lpSupply - lpIn)
                 && minPtOut <= m.fin.pt && minPtOut * VLp(m.lpSupply) <= VPt(m.fin) * lpIn
                 && minSyOut <= m.fin.sy && minSyOut * VLp(m.lpSupply) <= VSy(m.fin) * lpIn
  {
    LiquidityLimits.AcceptedIff(m.limits, now, m.lpSupply, 0 - lpIn);
    OutAtLeastIff(lpIn, VLp(m.lpSupply), VPt(m.fin), minPtOut);
    OutAtLeastIff(lpIn, VLp(m.lpSupply), VSy(m.fin), minSyOut);
    hide ShareOf, VerifyLimits, LiquidityLimits.WithinBps, Removed;
  }

  /** What an accepted withdrawal pays, on each side: the exact share rounded down, or all there is if that is less. */
  lemma WithdrawerGets(m: Market, lpIn: nat, minPtOut: nat, minSyOut: nat, now: nat, k: nat)
    requires WithdrawLiquidity(m, lpIn, minPtOut, minSyOut, now).Ok?
    ensures var m' := WithdrawLiquidity(m, lpIn, minPtOut, minSyOut, now).value;
            && m'.lpSupply == m.lpSupply - lpIn
            && (k <= m.fin.pt - m'.fin.pt <==> k <= m.fin.pt && k * VLp(m.lpSupply) <= VPt(m.fin) * lpIn)
            && (k <= m.fin.sy - m'.fin.sy <==> k <= m.fin.sy && k * VLp(m.lpSupply) <= VSy(m.fin) * lpIn)
  {
    OutAtLeastIff(lpIn, VLp(m.lpSupply), VPt(m.fin), k);
    OutAtLeastIff(lpIn, VLp(m.lpSupply), VSy(m.fin), k);
    hide ShareOf, VerifyLimits;
  }
}
