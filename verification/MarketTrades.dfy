/** Trading: every rounding, the fee and the curve work for the pool. */
module MarketTrades {
  import opened Foundations
  import opened Numbers
  import opened CeilRounding
  import opened RealFacts
  import opened TimeCurve
  import opened Markets

  /** What the market's creation fixes: a rising curve, and a treasury cut of at most the whole fee. */
  predicate WellConfigured(m: Market) {
    m.fin.rateScalarRoot > 0.0 && m.feeTreasuryBps <= 10_000
  }

  function BasePerSy(rate: Number): real {
    rate as real / ONE as real
  }

  /** The PT price the stored implied rate stands for at time `now`: asset per PT is its inverse. */
  function Implied(a: Analysis, m: Market, now: nat): real {
    ExchangeRateFromLn(a, m.fin.lastLnImpliedRate, SecRemaining(m.fin, now))
  }

  /** The virtual reserves in asset, PT priced at the exchange rate `x`. */
  function PoolValue(m: Market, rate: Number, x: real): real
    requires x > 0.0
  {
    BasePerSy(rate) * VSy(m.fin) as real + VPt(m.fin) as real / x
  }

  // ---------- Rounding of one trade ----------

  /** The whole asset units a trader owes or is due. */
  function AssetUnits(netAsset: real): nat {
    Abs(netAsset.Floor)
  }

  /** What rounding may cost the pool on one payment: nothing when the ceiling covers it, 1e-12 SY when it does not. */
  function PaymentSlack(asset: nat, rate: Number): real
    requires rate > 0
  {
    if CoveredAt(asset, rate) then 0.0 else BasePerSy(rate) / ONE as real
  }

  /** A buyer pays at least the asset amount, up to that slack. */
  lemma BuyerPays(netAsset: real, rate: Number)
    requires rate > 0 && netAsset < 0.0
    ensures NetTraderSy(netAsset, rate) <= 0
    ensures BasePerSy(rate) * Abs(NetTraderSy(netAsset, rate)) as real + PaymentSlack(AssetUnits(netAsset), rate)
            >= AssetUnits(netAsset) as real >= -netAsset
  {
    var asset := AssetUnits(netAsset);
    SyCeilPays(asset, rate);
    hide SyCeil, BasePerSy, PaymentSlack;
    assert NetTraderSy(netAsset, rate) == 0 - SyCeil(asset, rate);
  }

  /** The SY a buyer pays is worth the asset units owed exactly when the ceiling covers them at this rate. */
  lemma BuyerPaysInFullIff(netAsset: real, rate: Number)
    requires rate > 0 && netAsset < 0.0
    ensures BasePerSy(rate) * Abs(NetTraderSy(netAsset, rate)) as real >= AssetUnits(netAsset) as real
       <==> CoveredAt(AssetUnits(netAsset), rate)
  {
    var asset := AssetUnits(netAsset);
    SyCeilCoversIff(asset, rate);
    hide SyCeil, BasePerSy, CoveredAt;
    assert NetTraderSy(netAsset, rate) == 0 - SyCeil(asset, rate);
  }

  /** So buyers always pay in full, whatever they buy, exactly at the covering rates: every rate up to 1.5 is one. */
  lemma BuyersPayInFullIff(rate: Number)
    requires rate > 0
    ensures Covering(rate)
       <==> forall netAsset: real :: netAsset < 0.0 ==> PaysInFull(netAsset, rate)
    ensures rate <= ONE + HALF ==> Covering(rate)
  {
    CoveringIff(rate);
    if rate <= ONE + HALF {
      LowRatesCover(rate);
    }
    hide Covering, CoveredAt, PaysInFull;
    if Covering(rate) {
      forall netAsset: real | netAsset < 0.0 ensures PaysInFull(netAsset, rate) {
        assert CoveredAt(AssetUnits(netAsset), rate);
        PaysInFullIs(netAsset, rate);
      }
    } else {
      var amount: nat :| !CoveredAt(amount, rate);
      ZeroCovered(rate);
      WholeUnits(amount);
      PaysInFullIs(-(amount as real), rate);
      assert !PaysInFull(-(amount as real), rate);
    }
  }

  predicate PaysInFull(netAsset: real, rate: Number)
    requires rate > 0
  {
    BasePerSy(rate) * Abs(NetTraderSy(netAsset, rate)) as real >= AssetUnits(netAsset) as real
  }

  lemma PaysInFullIs(netAsset: real, rate: Number)
    requires rate > 0 && netAsset < 0.0
    ensures PaysInFull(netAsset, rate) <==> CoveredAt(AssetUnits(netAsset), rate)
  {
    BuyerPaysInFullIff(netAsset, rate);
  }

  lemma WholeUnits(n: nat)
    ensures AssetUnits(-(n as real)) == n
  {
  }

  lemma ZeroCovered(rate: Number)
    requires rate > 0
    ensures CoveredAt(0, rate)
  {
  }

  /** A payment that falls short: for three asset at 2.999999999999 asset per SY the buyer pays a single SY. */
  lemma BuyerCanUnderpay()
    ensures var rate := 2_999_999_999_999;
            NetTraderSy(-3.0, rate) == -1 && BasePerSy(rate) * 1.0 < 3.0
  {
    CeilUndershoots();
    assert (-3.0).Floor == -3;
  }

  lemma SyCeilPays(asset: nat, rate: Number)
    requires rate > 0
    ensures BasePerSy(rate) * SyCeil(asset, rate) as real + PaymentSlack(asset, rate) >= asset as real
  {
    SyCeilCoversIff(asset, rate);
    CeilDivSlack(FromNatural(asset), rate);
    hide Ceil, Div, CoveredAt;
    PayProduct(asset, SyCeil(asset, rate), rate);
  }

  lemma SyCeilCoversIff(asset: nat, rate: Number)
    requires rate > 0
    ensures BasePerSy(rate) * SyCeil(asset, rate) as real >= asset as real <==> CoveredAt(asset, rate)
  {
    CeilDivCoversIff(FromNatural(asset), rate);
    hide Ceil, Div;
    WorthProduct(asset, SyCeil(asset, rate), rate);
  }

  lemma WorthProduct(asset: nat, sy: nat, rate: nat)
    ensures BasePerSy(rate) * sy as real >= asset as real <==> sy * rate >= asset * ONE
  {
    assert (rate * sy) as real == rate as real * sy as real;
    var r, s := rate as real, sy as real;
    assert r / ONE as real * s == r * s / ONE as real;
    assert sy * rate == rate * sy;
  }

  lemma PayProduct(asset: nat, sy: nat, rate: nat)
    requires asset * ONE * ONE < sy * ONE * rate + rate
    ensures BasePerSy(rate) * sy as real + BasePerSy(rate) / ONE as real >= asset as real
  {
    assert sy * ONE * rate == ONE * (rate * sy);
    assert (rate * sy) as real == rate as real * sy as real;
    var r, s := rate as real, sy as real;
    assert r / ONE as real * s == r * s / ONE as real;
  }

  /** A seller is paid at most the asset amount. */
  lemma SellerPaid(netAsset: real, rate: Number)
    requires rate > 0 && netAsset >= 0.0
    ensures NetTraderSy(netAsset, rate) >= 0
    ensures BasePerSy(rate) * NetTraderSy(netAsset, rate) as real <= netAsset
  {
    var asset := Abs(netAsset.Floor);
    FloorDivExact(FromNatural(asset), rate);
    DivBounds(asset * ONE, rate);
    hide Floor, Div;
    PaidProduct(asset, SyFloor(asset, rate), rate);
  }

  lemma PaidProduct(asset: nat, sy: nat, rate: nat)
    requires rate * sy <= asset * ONE
    ensures BasePerSy(rate) * sy as real <= asset as real
  {
    assert (rate * sy) as real == rate as real * sy as real;
    var r, s := rate as real, sy as real;
    assert r / ONE as real * s == r * s / ONE as real;
  }

  /** The treasury's cut is worth at most the fee. */
  lemma TreasuryWithinFee(fee: real, rate: Number, bps: nat)
    requires rate > 0 && fee >= 0.0 && bps <= 10_000
    ensures BasePerSy(rate) * (SyFee(fee, rate) * bps / 10_000) as real <= fee
    ensures SyFee(fee, rate) * bps / 10_000 >= 0
  {
    var b, n := BasePerSy(rate), SyFee(fee, rate);
    var q := fee / b;
    QuotientTimes(fee, b);
    CancelReal(b, 0.0, q, 0.0, fee);
    FloorBelow(q);
    MulMono(bps, 10_000, n);
    var cut := n * bps / 10_000;
    assert 0 <= cut <= n;
    MulMonoReal(b, cut as real, n as real);
    MulMonoReal(b, n as real, q);
  }

  // ---------- One trade ----------

  /** The exchange rate and fee behind an accepted quote. */
  lemma QuoteParts(a: Analysis, m: Market, rate: Number, netPt: int, now: nat) returns (er: real, fee: real)
    requires Lawful(a) && WellConfigured(m) && rate > 0 && Quote(a, m, rate, netPt, now).Ok?
    ensures er > 1.0 && fee >= 0.0
    ensures if netPt > 0 then er <= Implied(a, m, now) else er >= Implied(a, m, now)
    ensures Quote(a, m, rate, netPt, now).value
         == TradeResult(netPt, NetTraderSy(-(netPt as real) / er - fee, rate), SyFee(fee, rate),
                        SyFee(fee, rate) * m.feeTreasuryBps / 10_000)
  {
    var sec, floor := SecRemaining(m.fin, now), Floor(AssetBalance(m.fin, rate));
    var asset := if netPt > 0 then Ceil(AssetBalance(m.fin, rate)) else floor;
    FloorUpToCeil(AssetBalance(m.fin, rate));
    hide Floor, Ceil, AssetBalance, NetTraderSy, SyFee, ExchangeRateFromLn, FeeRate, FindRateAnchor, RateScalar;
    ScalarNonZero(m.fin.rateScalarRoot, sec);
    var scalar := RateScalar(m.fin.rateScalarRoot, sec);
    var anchor := FindRateAnchor(a, VPt(m.fin), floor, scalar, m.fin.lastLnImpliedRate, sec);
    var feeRate := FeeRate(a, m.fin.lnFeeRateRoot, sec);
    TradeAgainstImplied(a, VPt(m.fin), floor, asset, scalar, m.fin.lastLnImpliedRate, sec, feeRate, netPt, m.flashSwap);
    hide Trade;
    var t := Trade(a, VPt(m.fin), asset, scalar, anchor, feeRate, netPt, m.flashSwap).trade;
    er, fee := t.rate, t.fee;
  }

  lemma FloorUpToCeil(x: Number)
    ensures Floor(x) <= Ceil(x)
  {
  }

  lemma BuyGains(rho: real, sy: real, cut: real, n: real, er: real, x: real, fee: real, slack: real)
    requires er > 1.0 && x >= er && n >= 0.0
    requires rho * sy + slack >= n / er + fee && rho * cut <= fee
    ensures rho * sy - rho * cut - n / x >= -slack
  {
    QuotientFalls(n, er, x);
  }

  lemma SellGains(rho: real, sy: real, cut: real, n: real, er: real, x: real, fee: real)
    requires x > 0.0 && er >= x && n >= 0.0
    requires rho * sy <= n / er - fee && rho * cut <= fee
    ensures n / x - rho * sy - rho * cut >= 0.0
  {
    QuotientFalls(n, x, er);
  }

  lemma QuotientFalls(n: real, small: real, large: real)
    requires n >= 0.0 && 0.0 < small <= large
    ensures n / large <= n / small
  {
    var p, q := n / large, n / small;
    QuotientTimes(n, large);
    QuotientTimes(n, small);
    CancelReal(small, 0.0, q, 0.0, n);
    MulMonoReal(q, small, large);
    CancelReal(large, p, q, n, q * large);
  }

  lemma ValueMoves(m: Market, m': Market, rate: Number, x: real, dSy: int, dPt: int)
    requires x > 0.0 && VSy(m'.fin) == VSy(m.fin) + dSy && VPt(m'.fin) == VPt(m.fin) + dPt
    ensures PoolValue(m', rate, x) == PoolValue(m, rate, x) + BasePerSy(rate) * dSy as real + dPt as real / x
  {
    var b := BasePerSy(rate);
    DistributeReal(b, VSy(m.fin) as real, dSy as real);
    assert (VPt(m.fin) + dPt) as real / x == VPt(m.fin) as real / x + dPt as real / x;
  }

  /** What an accepted trade does to the balances, and what it leaves alone. */
  lemma AppliedTrade(a: Analysis, m: Market, netPt: int, syConstraint: int, now: nat, rate: Number)
    requires Lawful(a)
    ensures TradePt(a, m, netPt, syConstraint, now, rate).Ok? ==>
            rate > 0 && Quote(a, m, rate, netPt, now).Ok?
    ensures TradePt(a, m, netPt, syConstraint, now, rate).Ok? ==>
            var m', t := TradePt(a, m, netPt, syConstraint, now, rate).value, Quote(a, m, rate, netPt, now).value;
            && m'.fin.pt == m.fin.pt - netPt
            && m'.fin.sy == m.fin.sy - t.netSy - t.treasuryFee
            && ((netPt > 0 && t.netSy < 0) || (netPt < 0 && t.netSy > 0))
            && t.netSy >= syConstraint
            && m' == m.(fin := m.fin.(pt := m'.fin.pt, sy := m'.fin.sy))
  {
    hide Quote, AssetBalance, Floor, FindRateAnchor, LnImpliedRate, RateScalar;
    if TradePt(a, m, netPt, syConstraint, now, rate).Ok? {
      QuoteNet(a, m, rate, netPt, now);
      var f, sec := TradePt(a, m, netPt, syConstraint, now, rate).value.fin, SecRemaining(m.fin, now);
      ScalarNonZero(m.fin.rateScalarRoot, sec);
      AnchorRoundTrip(a, VPt(f), Floor(AssetBalance(f.(lastLnImpliedRate := m.fin.lastLnImpliedRate), rate)),
                      RateScalar(m.fin.rateScalarRoot, sec), m.fin.lastLnImpliedRate, sec);
    }
  }

  lemma QuoteNet(a: Analysis, m: Market, rate: Number, netPt: int, now: nat)
    requires rate > 0
    ensures Quote(a, m, rate, netPt, now).Ok? ==> Quote(a, m, rate, netPt, now).value.netPt == netPt
  {
  }

  /** A change of the balances weighed at one exchange rate. */
  function Gain(rate: Number, x: real, dSy: int, dPt: int): real
    requires x > 0.0
  {
    BasePerSy(rate) * dSy as real + dPt as real / x
  }

  /** What rounding may cost the pool on any purchase at this rate: nothing at a covering rate. */
  function BuySlack(rate: Number): real {
    if Covering(rate) then 0.0 else BasePerSy(rate) / ONE as real
  }

  lemma PaymentWithin(asset: nat, rate: Number)
    requires rate > 0
    ensures 0.0 <= PaymentSlack(asset, rate) <= BuySlack(rate)
  {
    assert BasePerSy(rate) / ONE as real >= 0.0;
    if Covering(rate) {
      CoveringCovers(asset, rate);
    }
    hide Covering, CoveredAt, BasePerSy;
  }

  lemma BuySlackBounds(rate: Number)
    ensures 0.0 <= BuySlack(rate) <= BasePerSy(rate) / ONE as real
    ensures Covering(rate) ==> BuySlack(rate) == 0.0
  {
    hide Covering;
  }

  lemma BuyGain(rate: Number, x: real, er: real, fee: real, netPt: int, bps: nat)
    requires rate > 0 && er > 1.0 && x >= er && fee >= 0.0 && netPt > 0 && bps <= 10_000
    ensures Gain(rate, x, -NetTraderSy(-(netPt as real) / er - fee, rate) - SyFee(fee, rate) * bps / 10_000, -netPt)
         >= -BuySlack(rate)
  {
    hide NetTraderSy, SyFee, BasePerSy, Gain, PaymentSlack, BuySlack;
    NegativeQuotient(netPt, er);
    PaymentWithin(AssetUnits(-(netPt as real) / er - fee), rate);
    BuyerPays(-(netPt as real) / er - fee, rate);
    TreasuryWithinFee(fee, rate, bps);
    BuyGainOf(rate, x, er, fee, netPt, Abs(NetTraderSy(-(netPt as real) / er - fee, rate)),
              SyFee(fee, rate) * bps / 10_000);
  }

  lemma BuyGainOf(rate: Number, x: real, er: real, fee: real, netPt: int, paid: nat, cut: nat)
    requires rate > 0 && er > 1.0 && x >= er && netPt > 0
    requires BasePerSy(rate) * paid as real + BuySlack(rate) >= netPt as real / er + fee
    requires BasePerSy(rate) * cut as real <= fee
    ensures Gain(rate, x, paid - cut, -netPt) >= -BuySlack(rate)
  {
    hide BasePerSy, BuySlack;
    BuyGains(BasePerSy(rate), paid as real, cut as real, netPt as real, er, x, fee, BuySlack(rate));
    DistributeReal(BasePerSy(rate), paid as real, -(cut as real));
    assert (paid - cut) as real == paid as real + -(cut as real);
    NegatedQuotient(netPt, x);
  }

  lemma SellGain(rate: Number, x: real, er: real, fee: real, netPt: int, bps: nat)
    requires rate > 0 && er > 1.0 && 0.0 < x <= er && fee >= 0.0 && netPt < 0 && bps <= 10_000
    requires NetTraderSy(-(netPt as real) / er - fee, rate) > 0
    ensures Gain(rate, x, -NetTraderSy(-(netPt as real) / er - fee, rate) - SyFee(fee, rate) * bps / 10_000, -netPt)
            >= 0.0
  {
    ReceivesAsset(-(netPt as real) / er - fee, rate);
    hide NetTraderSy, SyFee, BasePerSy, Gain;
    SellerPaid(-(netPt as real) / er - fee, rate);
    TreasuryWithinFee(fee, rate, bps);
    SellGainOf(rate, x, er, fee, netPt, NetTraderSy(-(netPt as real) / er - fee, rate),
               SyFee(fee, rate) * bps / 10_000);
  }

  lemma SellGainOf(rate: Number, x: real, er: real, fee: real, netPt: int, out: nat, cut: nat)
    requires 0.0 < x <= er && netPt < 0
    requires BasePerSy(rate) * out as real <= -(netPt as real) / er - fee
    requires BasePerSy(rate) * cut as real <= fee
    ensures Gain(rate, x, 0 - out - cut, -netPt) >= 0.0
  {
    hide BasePerSy;
    SellGains(BasePerSy(rate), out as real, cut as real, -(netPt as real), er, x, fee);
    SumOfTwo(BasePerSy(rate), out, cut);
    assert (-netPt) as real == -(netPt as real);
  }

  lemma NegativeQuotient(n: int, er: real)
    requires n > 0 && er > 0.0
    ensures -(n as real) / er < 0.0 && -(-(n as real) / er) == n as real / er
  {
  }

  lemma NegatedQuotient(n: int, x: real)
    requires x > 0.0
    ensures (-n) as real / x == -(n as real / x)
  {
  }

  lemma SumOfTwo(b: real, x: int, y: int)
    ensures b * (-x - y) as real == -(b * x as real) - b * y as real
  {
    assert (-x - y) as real == -(x as real) + -(y as real);
    DistributeReal(b, -(x as real), -(y as real));
  }

  lemma ReceivesAsset(netAsset: real, rate: Number)
    requires rate > 0 && NetTraderSy(netAsset, rate) > 0
    ensures netAsset >= 0.0
  {
  }

  /**
   An accepted trade leaves the implied rate alone and lowers the pool's value, at that rate, by at most
   1e-12 SY; a sale of PT never lowers it, and at a covering rate neither does a purchase.
   */
  lemma TradeKeepsValue(a: Analysis, m: Market, netPt: int, syConstraint: int, now: nat, rate: Number)
    requires Lawful(a) && WellConfigured(m)
    ensures TradePt(a, m, netPt, syConstraint, now, rate).Ok? ==>
            var m', x := TradePt(a, m, netPt, syConstraint, now, rate).value, Implied(a, m, now);
            && Implied(a, m', now) == x && WellConfigured(m')
            && PoolValue(m', rate, x) >= PoolValue(m, rate, x)
                - (if netPt > 0 then BuySlack(rate) else 0.0)
  {
    hide TradePt, Quote, NetTraderSy, SyFee, BasePerSy, BuySlack;
    AppliedTrade(a, m, netPt, syConstraint, now, rate);
    if TradePt(a, m, netPt, syConstraint, now, rate).Ok? {
      var m', x := TradePt(a, m, netPt, syConstraint, now, rate).value, Implied(a, m, now);
      var er, fee := QuoteParts(a, m, rate, netPt, now);
      var t := Quote(a, m, rate, netPt, now).value;
      ValueMoves(m, m', rate, x, -t.netSy - t.treasuryFee, -netPt);
      if netPt > 0 {
        BuyGain(rate, x, er, fee, netPt, m.feeTreasuryBps);
      } else {
        SellGain(rate, x, er, fee, netPt, m.feeTreasuryBps);
      }
    }
  }
}
