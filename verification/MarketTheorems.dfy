/** Runs that mix trades with adds and removes: nobody takes value out of the pool. */
module MarketTheorems {
  import opened Foundations
  import opened Numbers
  import opened CeilRounding
  import opened RealFacts
  import opened TimeCurve
  import opened Markets
  import opened MarketLiquidity
  import opened MarketTrades

  // ---------- The stored rate ----------

  lemma StepSameCurve(a: Analysis, m: Market, t: Timed)
    requires Lawful(a)
    ensures SameCurve(m, Step(a, m, t.op, t.now, t.rate))
  {
    hide DepositLiquidity, WithdrawLiquidity, TradePt, Quote;
    if Apply(a, m, t.op, t.now, t.rate).Ok? {
      match t.op
      case DepositOp(ptIntent, syIntent, minLpOut) => DepositKeeps(m, ptIntent, syIntent, minLpOut, t.now);
      case WithdrawOp(lpIn, minPtOut, minSyOut) => WithdrawKeeps(m, lpIn, minPtOut, minSyOut, t.now);
      case TradeOp(netPt, syConstraint) => AppliedTrade(a, m, netPt, syConstraint, t.now, t.rate);
    }
  }

  /**
   No run of trades, adds and removes, at any times and SY rates, moves the stored implied rate: each
   trade recomputes the anchor on the new reserves from the old rate and writes back what it read.
   */
  lemma {:induction false} StoredRateNeverMoves(a: Analysis, m: Market, ops: seq<Timed>)
    requires Lawful(a)
    ensures SameCurve(m, Run(a, m, ops))
    ensures Run(a, m, ops).fin.lastLnImpliedRate == m.fin.lastLnImpliedRate
    decreases |ops|
  {
    if ops != [] {
      StepSameCurve(a, m, ops[0]);
      hide Step;
      StoredRateNeverMoves(a, Step(a, m, ops[0].op, ops[0].now, ops[0].rate), ops[1..]);
    }
  }

  // ---------- One step's worth ----------

  /** Every operation meets the same clock and SY rate. */
  predicate AtMoment(ops: seq<Timed>, now: nat, rate: Number) {
    forall k :: 0 <= k < |ops| ==> ops[k].now == now && ops[k].rate == rate
  }

  /** Reserves valued at `rho` asset per SY and `x` PT per asset, per one of `l` tokens. */
  function Worth(rho: real, x: real, sy: nat, pt: nat, l: nat): real
    requires x > 0.0 && l > 0
  {
    (rho * sy as real + pt as real / x) / l as real
  }

  /** The pool's value per virtual LP token. */
  function PerLp(m: Market, rate: Number, x: real): real
    requires x > 0.0
  {
    Worth(BasePerSy(rate), x, VSy(m.fin), VPt(m.fin), VLp(m.lpSupply))
  }

  lemma PerLpIsShare(m: Market, rate: Number, x: real)
    requires x > 0.0
    ensures PerLp(m, rate, x) == PoolValue(m, rate, x) / VLp(m.lpSupply) as real
  {
    hide BasePerSy;
  }

  /** What one trade's rounding may cost a virtual LP token: at most 1e-18 SY, and nothing at a covering rate. */
  function Slack(rate: Number): real {
    BuySlack(rate) / VIRTUAL as real
  }

  lemma TradeKeepsPerLp(a: Analysis, m: Market, netPt: int, syConstraint: int, now: nat, rate: Number)
    requires Lawful(a) && WellConfigured(m)
    ensures TradePt(a, m, netPt, syConstraint, now, rate).Ok? ==>
            PerLp(TradePt(a, m, netPt, syConstraint, now, rate).value, rate, Implied(a, m, now))
            >= PerLp(m, rate, Implied(a, m, now)) - Slack(rate)
  {
    hide TradePt, PoolValue, PerLp, BuySlack;
    BuySlackBounds(rate);
    TradeKeepsValue(a, m, netPt, syConstraint, now, rate);
    AppliedTrade(a, m, netPt, syConstraint, now, rate);
    if TradePt(a, m, netPt, syConstraint, now, rate).Ok? {
      var m', x := TradePt(a, m, netPt, syConstraint, now, rate).value, Implied(a, m, now);
      PerLpIsShare(m, rate, x);
      PerLpIsShare(m', rate, x);
      SlackShared(PoolValue(m, rate, x), PoolValue(m', rate, x), BuySlack(rate), VLp(m.lpSupply) as real);
    }
  }

  lemma SlackShared(v: real, w: real, s: real, l: real)
    requires s >= 0.0 && l >= VIRTUAL as real && w >= v - s
    ensures w / l >= v / l - s / VIRTUAL as real
  {
    var p, q, r := w / l, v / l, s / VIRTUAL as real;
    QuotientTimes(w, l);
    QuotientTimes(v, l);
    QuotientTimes(s, VIRTUAL as real);
    assert r >= 0.0;
    MulMonoReal(r, VIRTUAL as real, l);
    DistributeReal(l, q, -r);
    CancelReal(l, q + -r, p, l * (q + -r), w);
  }

  lemma LiquidityKeepsPerLp(m: Market, m': Market, rate: Number, x: real)
    requires PerLpKept(m, m') && x > 0.0
    ensures PerLp(m', rate, x) >= PerLp(m, rate, x)
  {
    assert BasePerSy(rate) >= 0.0;
    hide BasePerSy, Worth;
    WorthOrdered(BasePerSy(rate), x, VSy(m.fin), VPt(m.fin), VLp(m.lpSupply), VSy(m'.fin), VPt(m'.fin),
                 VLp(m'.lpSupply));
  }

  /** Reserves that are no smaller per LP token on either side are worth no less per LP token, at any prices. */
  lemma WorthOrdered(rho: real, x: real, sy: nat, pt: nat, l: nat, sy': nat, pt': nat, l': nat)
    requires rho >= 0.0 && x > 0.0 && l > 0 && l' > 0 && sy * l' <= sy' * l && pt * l' <= pt' * l
    ensures Worth(rho, x, sy', pt', l') >= Worth(rho, x, sy, pt, l)
  {
    PerUnitOrdered(sy, l, sy', l');
    PerUnitOrdered(pt, l, pt', l');
    SplitWorth(rho, x, sy, pt, l);
    SplitWorth(rho, x, sy', pt', l');
    MulMonoReal(rho, sy as real / l as real, sy' as real / l' as real);
    ScaleOrdered(pt as real / l as real, pt' as real / l' as real, x);
  }

  lemma PerUnitOrdered(n: nat, l: nat, n': nat, l': nat)
    requires l > 0 && l' > 0 && n * l' <= n' * l
    ensures n as real / l as real <= n' as real / l' as real
  {
    var p, q := n as real / l as real, n' as real / l' as real;
    QuotientTimes(n as real, l as real);
    QuotientTimes(n' as real, l' as real);
    assert (n * l') as real == n as real * l' as real;
    assert (n' * l) as real == n' as real * l as real;
    Cross(p, q, n as real, l as real, n' as real, l' as real);
  }

  lemma Cross(p: real, q: real, n: real, l: real, n': real, l': real)
    requires l > 0.0 && l' > 0.0 && p * l == n && q * l' == n' && n * l' <= n' * l
    ensures p <= q
  {
    Regroup(l', l, p);
    Regroup(l, l', q);
    CancelReal(l * l', p, q, n * l', n' * l);
  }

  lemma SplitWorth(rho: real, x: real, sy: nat, pt: nat, l: nat)
    requires x > 0.0 && l > 0
    ensures Worth(rho, x, sy, pt, l) == rho * (sy as real / l as real) + pt as real / l as real / x
  {
    SplitReal(rho, x, sy as real, pt as real, l as real);
  }

  lemma SplitReal(rho: real, x: real, s: real, p: real, d: real)
    requires x > 0.0 && d > 0.0
    ensures (rho * s + p / x) / d == rho * (s / d) + p / d / x
  {
    SumOverD(rho * s, p / x, d);
    ProductOverD(rho, s, d);
    QuotientsSwap(p, x, d);
  }

  lemma SumOverD(a: real, b: real, d: real)
    requires d > 0.0
    ensures (a + b) / d == a / d + b / d
  {
  }

  lemma ProductOverD(a: real, b: real, d: real)
    requires d > 0.0
    ensures a * b / d == a * (b / d)
  {
  }

  lemma QuotientsSwap(p: real, x: real, d: real)
    requires x > 0.0 && d > 0.0
    ensures p / x / d == p / d / x
  {
  }

  // ---------- Runs at one moment ----------

  function Drift(n: nat, rate: Number): real {
    n as real * Slack(rate)
  }

  lemma DriftStep(n: nat, rate: Number)
    ensures Drift(n + 1, rate) == Drift(n, rate) + Slack(rate)
    ensures Drift(0, rate) == 0.0
  {
    hide Slack;
    assert (n + 1) as real == n as real + 1.0;
    DistributeReal(Slack(rate), n as real, 1.0);
  }

  lemma DriftBounds(n: nat, rate: Number)
    ensures Covering(rate) ==> Drift(n, rate) == 0.0
    ensures 0.0 <= Slack(rate) <= BasePerSy(rate) / ONE as real / VIRTUAL as real
  {
    BuySlackBounds(rate);
    hide BuySlack, BasePerSy, Covering;
    assert n as real * 0.0 == 0.0;
  }

  lemma StepKeepsPerLp(a: Analysis, m: Market, t: Timed)
    requires Lawful(a) && WellConfigured(m)
    ensures var m', x := Step(a, m, t.op, t.now, t.rate), Implied(a, m, t.now);
            && WellConfigured(m') && Implied(a, m', t.now) == x
            && PerLp(m', t.rate, x) >= PerLp(m, t.rate, x) - Slack(t.rate)
  {
    hide DepositLiquidity, WithdrawLiquidity, TradePt, PerLp, BuySlack;
    BuySlackBounds(t.rate);
    StepSameCurve(a, m, t);
    if Apply(a, m, t.op, t.now, t.rate).Ok? {
      if t.op.TradeOp? {
        TradeKeepsPerLp(a, m, t.op.netPt, t.op.syConstraint, t.now, t.rate);
      } else {
        StepKeeps(a, m, t);
        LiquidityKeepsPerLp(m, Step(a, m, t.op, t.now, t.rate), t.rate, Implied(a, m, t.now));
      }
    }
  }

  /**
   Any run of trades, adds and removes at one moment and one SY rate leaves the pool's value per
   virtual LP token where it was, up to 1e-18 SY an operation.
   */
  lemma {:induction false} PoolWorthKept(a: Analysis, m: Market, ops: seq<Timed>, now: nat, rate: Number)
    requires Lawful(a) && WellConfigured(m) && AtMoment(ops, now, rate)
    ensures PerLp(Run(a, m, ops), rate, Implied(a, m, now)) >= PerLp(m, rate, Implied(a, m, now)) - Drift(|ops|, rate)
    decreases |ops|
  {
    hide Step, PerLp, Slack, WellConfigured, Implied, Drift;
    DriftStep(SatSub(|ops|, 1), rate);
    if ops != [] {
      StepKeepsPerLp(a, m, ops[0]);
      PoolWorthKept(a, Step(a, m, ops[0].op, ops[0].now, ops[0].rate), ops[1..], now, rate);
    }
  }

  /** At a covering rate, every rate up to 1.5 among them, no such run lowers it at all. */
  lemma PoolWorthNeverFalls(a: Analysis, m: Market, ops: seq<Timed>, now: nat, rate: Number)
    requires Lawful(a) && WellConfigured(m) && AtMoment(ops, now, rate) && Covering(rate)
    ensures PerLp(Run(a, m, ops), rate, Implied(a, m, now)) >= PerLp(m, rate, Implied(a, m, now))
  {
    PoolWorthKept(a, m, ops, now, rate);
    DriftBounds(|ops|, rate);
    hide Run, PerLp, Drift, Implied, Covering;
  }

  /**
   So when such a run returns the LP supply and the PT reserve to their start it takes out no SY: at a
   covering rate however long it is, at any other as long as it is shorter than 1e18 operations per
   virtual LP token.
   */
  lemma ClosedRunTakesNothing(a: Analysis, m: Market, ops: seq<Timed>, now: nat, rate: Number)
    requires Lawful(a) && WellConfigured(m) && AtMoment(ops, now, rate) && rate > 0
    requires Run(a, m, ops).lpSupply == m.lpSupply && Run(a, m, ops).fin.pt == m.fin.pt
    requires Covering(rate) || |ops| * VLp(m.lpSupply) < ONE * VIRTUAL
    ensures Run(a, m, ops).fin.sy >= m.fin.sy
  {
    PoolWorthKept(a, m, ops, now, rate);
    StoredRateNeverMoves(a, m, ops);
    assert BasePerSy(rate) > 0.0;
    var m' := Run(a, m, ops);
    assert Implied(a, m, now) > 0.0;
    hide Run, AtMoment, BasePerSy, Implied, Worth, Drift, Covering;
    NothingTaken(BasePerSy(rate), Implied(a, m, now), VPt(m.fin), VSy(m.fin), VSy(m'.fin), VLp(m.lpSupply), |ops|,
                 rate);
  }

  lemma KeptUnits(rho: real, c: real, sy: nat, sy': nat, e: real)
    requires rho > 0.0 && e < rho && rho * sy' as real + c >= rho * sy as real + c - e
    ensures sy <= sy'
  {
    if sy' < sy {
      MulMonoReal(rho, sy' as real + 1.0, sy as real);
      DistributeReal(rho, sy' as real, 1.0);
    }
  }

  lemma NothingTaken(rho: real, x: real, pt: nat, sy: nat, sy': nat, l: nat, n: nat, rate: Number)
    requires rho == BasePerSy(rate) > 0.0 && x > 0.0 && l > 0 && (Covering(rate) || n * l < ONE * VIRTUAL)
    requires Worth(rho, x, sy', pt, l) >= Worth(rho, x, sy, pt, l) - Drift(n, rate)
    ensures sy' >= sy
  {
    SmallDrift(rho, n, l, rate);
    hide Drift, BasePerSy, Covering, Worth;
    UnitsKept(rho, x, pt, sy, sy', l, Drift(n, rate));
  }

  lemma UnitsKept(rho: real, x: real, pt: nat, sy: nat, sy': nat, l: nat, e: real)
    requires rho > 0.0 && x > 0.0 && l > 0 && l as real * e < rho
    requires Worth(rho, x, sy', pt, l) >= Worth(rho, x, sy, pt, l) - e
    ensures sy' >= sy
  {
    var d, c := l as real, pt as real / x;
    TimesBoth(rho * sy as real + c, rho * sy' as real + c, d, e);
    KeptUnits(rho, c, sy, sy', d * e);
  }

  lemma TimesBoth(v: real, w: real, d: real, e: real)
    requires d > 0.0 && w / d >= v / d - e
    ensures w >= v - d * e
  {
    QuotientTimes(w, d);
    QuotientTimes(v, d);
    MulMonoReal(d, v / d - e, w / d);
    DistributeReal(d, v / d, -e);
  }

  lemma RegroupDrift(l: real, n: real, q: real)
    ensures l * (n * q) == q * (n * l)
  {
  }

  lemma SmallDrift(rho: real, n: nat, l: nat, rate: Number)
    requires rho == BasePerSy(rate) > 0.0 && (Covering(rate) || n * l < ONE * VIRTUAL)
    ensures l as real * Drift(n, rate) < rho
  {
    if Covering(rate) {
      DriftBounds(n, rate);
      assert l as real * 0.0 == 0.0;
    } else {
      hide BasePerSy;
      var k, nl, q := (ONE * VIRTUAL) as real, (n * l) as real, Slack(rate);
      assert nl == n as real * l as real;
      assert q * k == rho;
      assert q > 0.0;
      RegroupDrift(l as real, n as real, q);
      MulStrictReal(q, nl, k, q * nl, rho);
    }
  }

  // ---------- Runs of trades alone ----------

  predicate OnlyTrades(ops: seq<Timed>) {
    forall k :: 0 <= k < |ops| ==> ops[k].op.TradeOp?
  }

  /** What the rounding of `n` trades may cost the pool: at most 1e-12 SY each, and nothing at a covering rate. */
  function TradeDrift(n: nat, rate: Number): real {
    n as real * BuySlack(rate)
  }

  lemma TradeDriftStep(n: nat, rate: Number)
    ensures TradeDrift(n + 1, rate) == TradeDrift(n, rate) + BuySlack(rate)
    ensures TradeDrift(0, rate) == 0.0
    ensures Covering(rate) ==> TradeDrift(n, rate) == 0.0
  {
    BuySlackBounds(rate);
    hide BuySlack, Covering;
    var s := BuySlack(rate);
    assert (n + 1) as real == n as real + 1.0;
    DistributeReal(s, n as real, 1.0);
  }

  lemma StepKeepsValue(a: Analysis, m: Market, t: Timed)
    requires Lawful(a) && WellConfigured(m) && t.op.TradeOp?
    ensures var m', x := Step(a, m, t.op, t.now, t.rate), Implied(a, m, t.now);
            && WellConfigured(m') && Implied(a, m', t.now) == x
            && PoolValue(m', t.rate, x) >= PoolValue(m, t.rate, x) - BuySlack(t.rate)
  {
    hide TradePt, PoolValue, BuySlack;
    BuySlackBounds(t.rate);
    if Apply(a, m, t.op, t.now, t.rate).Ok? {
      TradeKeepsValue(a, m, t.op.netPt, t.op.syConstraint, t.now, t.rate);
    }
  }

  /** Any run of trades at one moment and one SY rate lowers the pool's value by at most 1e-12 SY a trade. */
  lemma {:induction false} TradesKeepValue(a: Analysis, m: Market, ops: seq<Timed>, now: nat, rate: Number)
    requires Lawful(a) && WellConfigured(m) && AtMoment(ops, now, rate) && OnlyTrades(ops)
    ensures PoolValue(Run(a, m, ops), rate, Implied(a, m, now))
            >= PoolValue(m, rate, Implied(a, m, now)) - TradeDrift(|ops|, rate)
    decreases |ops|
  {
    hide Step, PoolValue, TradeDrift, WellConfigured, Implied, BuySlack, Covering;
    TradeDriftStep(SatSub(|ops|, 1), rate);
    if ops != [] {
      StepKeepsValue(a, m, ops[0]);
      TradesKeepValue(a, Step(a, m, ops[0].op, ops[0].now, ops[0].rate), ops[1..], now, rate);
    }
  }

  /** At a covering rate no run of trades lowers the pool's value at all. */
  lemma TradesNeverLose(a: Analysis, m: Market, ops: seq<Timed>, now: nat, rate: Number)
    requires Lawful(a) && WellConfigured(m) && AtMoment(ops, now, rate) && OnlyTrades(ops) && Covering(rate)
    ensures PoolValue(Run(a, m, ops), rate, Implied(a, m, now)) >= PoolValue(m, rate, Implied(a, m, now))
  {
    TradesKeepValue(a, m, ops, now, rate);
    TradeDriftStep(|ops|, rate);
    hide Run, PoolValue, TradeDrift, Implied, Covering;
  }

  /**
   Trades that together move no PT never take out a single SY: any number of them at a covering rate, fewer than
   1e12 at others.
   */
  lemma NetZeroTradesTakeNothing(a: Analysis, m: Market, ops: seq<Timed>, now: nat, rate: Number)
    requires Lawful(a) && WellConfigured(m) && AtMoment(ops, now, rate) && OnlyTrades(ops) && rate > 0
    requires Run(a, m, ops).fin.pt == m.fin.pt && (Covering(rate) || |ops| < ONE)
    ensures Run(a, m, ops).fin.sy >= m.fin.sy
  {
    assert BasePerSy(rate) > 0.0 && Implied(a, m, now) > 0.0;
    hide Run, AtMoment, OnlyTrades, BasePerSy, Implied, TradeDrift, PoolValue, Covering;
    TradesKeepValue(a, m, ops, now, rate);
    SmallTradeDrift(|ops|, rate);
    PoolUnits(m, Run(a, m, ops), rate, Implied(a, m, now), TradeDrift(|ops|, rate));
  }

  lemma PoolUnits(m: Market, m': Market, rate: Number, x: real, e: real)
    requires x > 0.0 && e < BasePerSy(rate) && BasePerSy(rate) > 0.0 && m'.fin.pt == m.fin.pt
    requires PoolValue(m', rate, x) >= PoolValue(m, rate, x) - e
    ensures m'.fin.sy >= m.fin.sy
  {
    hide BasePerSy;
    KeptUnits(BasePerSy(rate), VPt(m.fin) as real / x, VSy(m.fin), VSy(m'.fin), e);
  }

  lemma SmallTradeDrift(n: nat, rate: Number)
    requires BasePerSy(rate) > 0.0 && (Covering(rate) || n < ONE)
    ensures TradeDrift(n, rate) < BasePerSy(rate)
  {
    TradeDriftStep(n, rate);
    hide BasePerSy, Covering;
    if !Covering(rate) {
      var q := BasePerSy(rate) / ONE as real;
      QuotientTimes(BasePerSy(rate), ONE as real);
      MulStrictReal(q, n as real, ONE as real, q * n as real, q * ONE as real);
    }
  }
}
