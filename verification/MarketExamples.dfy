/** A trade the market accepts. */
module MarketExamples {
  import opened Foundations
  import opened Numbers
  import opened TimeCurve
  import opened Markets
  import opened MarketTrades

  const NO_LIMITS := NetLimits(0, 0, 10_000, U32_MAX, 0)

  /** A year before expiry, one asset per SY, no fee, and an implied exchange rate of two. */
  function Even(): Market {
    Market(Financials(YEAR_SEC, 500_000, 500_000, 0.0, 1.0, 1.0), 0, U64_MAX, 0, false, NO_LIMITS)
  }

  lemma EvenYear()
    ensures Years(YEAR_SEC) == 1.0 && RateScalar(1.0, YEAR_SEC) == 1.0
  {
  }

  lemma EvenAsset(f: Financials)
    ensures Floor(AssetBalance(f, ONE)) == VSy(f)
  {
    MulNaturalExact(ONE, VSy(f));
    assert Mul(FromNatural(VSy(f)), ONE) == Mul(ONE, FromNatural(VSy(f)));
    FloorIsQuotient(ONE * VSy(f));
  }

  lemma EvenAnchor(a: Analysis)
    requires a == Sample()
    ensures FindRateAnchor(a, 1_500_000, 1_500_000, 1.0, 1.0, YEAR_SEC) == 2.0
  {
    EvenYear();
    hide Years;
    assert ProportionPt(1_500_000.0, 1_500_000.0) == 0.5;
    assert 0.5 / (1.0 - 0.5) == 1.0;
  }

  /** Selling 500 000 PT doubles the odds of PT and moves the price from two to three PT an asset. */
  lemma EvenTrade(a: Analysis)
    requires a == Sample()
    ensures Trade(a, 1_500_000, 1_500_000, 1.0, 2.0, 1.0, -500_000, false)
            == Priced(CurveTrade(3.0, 500_000.0 / 3.0, 0.0))
  {
    var p := 2_000_000.0 / 3_000_000.0;
    assert p < 1.0 && p / (1.0 - p) == 2.0;
    assert ExchangeRate(Logit(a, p), 1.0, 2.0) == 3.0;
    assert AssetFee(500_000.0 / 3.0, 1.0) == 0.0;
  }

  lemma EvenQuote(a: Analysis, m: Market)
    requires a == Sample() && m == Even()
    ensures Quote(a, m, ONE, -500_000, 0) == Ok(TradeResult(-500_000, 166_666, 0, 0))
  {
    EvenAsset(m.fin);
    EvenAnchor(a);
    EvenYear();
    EvenTrade(a);
    assert FeeRate(a, 0.0, YEAR_SEC) == 1.0;
    EvenNet(500_000.0 / 3.0);
    hide Floor, AssetBalance, FindRateAnchor, Trade, FeeRate, RateScalar, NetTraderSy;
  }

  lemma EvenNet(netAsset: real)
    requires netAsset == 500_000.0 / 3.0
    ensures NetTraderSy(netAsset, ONE) == 166_666
  {
    assert netAsset.Floor == 166_666;
    FloorDivExact(FromNatural(166_666), ONE);
    hide Floor, Div;
  }

  lemma EvenApply(a: Analysis, f: Financials)
    requires f == Even().fin
    ensures ApplyTrade(a, f, ONE, 0, TradeResult(-500_000, 166_666, 0, 0)).Ok?
  {
    EvenAsset(f.(pt := 1_000_000, sy := 333_334));
    hide Floor, AssetBalance, FindRateAnchor, RateScalar, LnImpliedRate;
  }

  /** The assumptions of the trading theorems can be met together: some trade is accepted. */
  lemma SomeTradeAccepted(a: Analysis, m: Market)
    requires a == Sample() && m == Even()
    ensures Lawful(a) && WellConfigured(m) && TradePt(a, m, -500_000, 0, 0, ONE).Ok?
  {
    LawsSatisfiable();
    EvenQuote(a, m);
    EvenApply(a, m.fin);
    hide Quote, Lawful, ApplyTrade, Sample;
  }
}
