/**
 The market account as its handlers update it in place.

 A handler that returns an error may leave its account half-written; the runtime then discards the
 whole transaction, so the contracts promise the new state of accepted calls only.
 */
module MarketProgram {
  import opened Foundations
  import opened Numbers
  import opened TimeCurve
  import opened Markets
  import opened MarketLiquidity
  import opened MarketTrades
  import LiquidityLimits
  import MarketPricing

  class MarketFinancials {
    const expirationTs: nat
    const lnFeeRateRoot: real
    const rateScalarRoot: real
    var ptBalance: nat
    var syBalance: nat
    var lastLnImpliedRate: real

    function Data(): Financials
      reads this
    {
      Financials(expirationTs, ptBalance, syBalance, lnFeeRateRoot, lastLnImpliedRate, rateScalarRoot)
    }

    constructor (f: Financials)
      ensures Data() == f
    {
      expirationTs, lnFeeRateRoot, rateScalarRoot := f.expirationTs, f.lnFeeRateRoot, f.rateScalarRoot;
      ptBalance, syBalance, lastLnImpliedRate := f.pt, f.sy, f.lastLnImpliedRate;
    }

    method DecPtBalance(amount: nat) returns (r: Result<(), Error>)
      modifies this`ptBalance
      ensures r.Ok? <==> amount <= old(ptBalance)
      ensures ptBalance == if r.Ok? then old(ptBalance) - amount else old(ptBalance)
      ensures r.Err? ==> r.error == Abort
    {
      if ptBalance < amount {
        return Err(Abort);
      }
      ptBalance := ptBalance - amount;
      r := Ok(());
    }

    method DecSyBalance(amount: nat) returns (r: Result<(), Error>)
      modifies this`syBalance
      ensures r.Ok? <==> amount <= old(syBalance)
      ensures syBalance == if r.Ok? then old(syBalance) - amount else old(syBalance)
      ensures r.Err? ==> r.error == Abort
    {
      if syBalance < amount {
        return Err(Abort);
      }
      syBalance := syBalance - amount;
      r := Ok(());
    }

    /**
     Mints the most LP tokens the intents cover, and takes on each side at least the share they stand for and no
     more than rounding above it.
     */
    method AddLiquidity(syIntent: nat, ptIntent: nat, lpSupply: nat) returns (r: Added)
      modifies this`ptBalance, this`syBalance
      ensures r == TimeCurve.AddLiquidity(syIntent, ptIntent, VLp(lpSupply), VSy(old(Data())), VPt(old(Data())))
      ensures Data() == old(Data()).(pt := old(ptBalance) + r.ptIn, sy := old(syBalance) + r.syIn)
      ensures r.syIn <= syIntent && r.ptIn <= ptIntent
      ensures VSy(old(Data())) * r.lpOut <= r.syIn * VLp(lpSupply)
      ensures VPt(old(Data())) * r.lpOut <= r.ptIn * VLp(lpSupply)
      ensures FairlyAdded(r, syIntent, ptIntent, VLp(lpSupply), VSy(old(Data())), VPt(old(Data())))
    {
      hide TimeCurve.AddLiquidity, FairlyAdded;
      AddLiquidityFair(syIntent, ptIntent, VLp(lpSupply), VSy(Data()), VPt(Data()));
      AddLiquidityBounds(syIntent, ptIntent, VLp(lpSupply), VSy(Data()), VPt(Data()));
      r := TimeCurve.AddLiquidity(syIntent, ptIntent, VLp(lpSupply), VSy(Data()), VPt(Data()));
      ptBalance := ptBalance + r.ptIn;
      syBalance := syBalance + r.syIn;
    }

    /** Pays the floored share of each virtual reserve, or all of the real reserve when that is less. */
    method RmLiquidity(lpIn: nat, lpSupply: nat) returns (r: Result<(nat, nat), Error>)
      modifies this`ptBalance, this`syBalance
      ensures r.Ok? <==> lpIn <= lpSupply
      ensures r.Err? ==> r.error == Abort
      ensures r.Ok? ==>
                && r.value.0 == Min(ShareOf(lpIn, VLp(lpSupply), VPt(old(Data()))), old(ptBalance))
                && r.value.1 == Min(ShareOf(lpIn, VLp(lpSupply), VSy(old(Data()))), old(syBalance))
                && Data() == old(Data()).(pt := old(ptBalance) - r.value.0, sy := old(syBalance) - r.value.1)
    {
      hide ShareOf;
      if lpIn > lpSupply {
        return Err(Abort);
      }
      var ptOut := ShareOf(lpIn, VLp(lpSupply), VPt(Data()));
      var syOut := ShareOf(lpIn, VLp(lpSupply), VSy(Data()));
      ptOut := Min(ptOut, ptBalance);
      syOut := Min(syOut, syBalance);
      ptBalance := ptBalance - ptOut;
      syBalance := syBalance - syOut;
      r := Ok((ptOut, syOut));
    }

    method ApplyTradePt(a: Analysis, rate: Number, now: nat, t: TradeResult) returns (r: Result<(), Error>)
      requires rate > 0
      modifies this
      ensures match ApplyTrade(a, old(Data()), rate, now, t)
              case Err(e) => r == Err(e)
              case Ok(f) => r == Ok(()) && Data() == f
    {
      hide AssetBalance, Floor, FindRateAnchor, LnImpliedRate, RateScalar;
      var moved := Abs(t.netSy);
      if t.netPt > 0 {
        var dec := DecPtBalance(t.netPt);
        if dec.Err? {
          return Err(Abort);
        }
        syBalance := syBalance + moved;
      } else {
        ptBalance := ptBalance + -t.netPt;
        var dec := DecSyBalance(moved);
        if dec.Err? {
          return Err(Abort);
        }
      }
      var cut := DecSyBalance(t.treasuryFee);
      if cut.Err? {
        return Err(Abort);
      }
      var sec, floor := SecRemaining(Data(), now), Floor(AssetBalance(Data(), rate));
      if sec == 0 || floor == 0 || rateScalarRoot == 0.0 {
        return Err(Abort);
      }
      ScalarNonZero(rateScalarRoot, sec);
      var scalar := RateScalar(rateScalarRoot, sec);
      var anchor := FindRateAnchor(a, VPt(Data()), floor, scalar, lastLnImpliedRate, sec);
      lastLnImpliedRate := LnImpliedRate(a, VPt(Data()), floor, scalar, anchor, sec);
      r := Ok(());
    }
  }

  class LiquidityNetBalanceLimits {
    const maxDecreaseBps: nat
    const maxIncreaseBps: nat
    const duration: nat
    var windowStart: nat
    var startBalance: nat

    function Data(): NetLimits
      reads this
    {
      NetLimits(windowStart, startBalance, maxDecreaseBps, maxIncreaseBps, duration)
    }

    constructor (l: NetLimits)
      ensures Data() == l
    {
      maxDecreaseBps, maxIncreaseBps, duration := l.maxDecreaseBps, l.maxIncreaseBps, l.duration;
      windowStart, startBalance := l.windowStart, l.startBalance;
    }

    method VerifyLimits(now: nat, balance: nat, change: int) returns (r: Result<(), Error>)
      modifies this
      ensures match Markets.VerifyLimits(old(Data()), now, balance, change)
              case Err(e) => r == Err(e)
              case Ok(l) => r == Ok(()) && Data() == l
      ensures r.Ok? ==>
                && LiquidityLimits.InBand(Data(), balance + change)
                && LiquidityLimits.WithinBps(Data(), balance + change)
      ensures r.Err? && balance + change >= 0 ==>
                !LiquidityLimits.WithinBps(OpenWindow(old(Data()), now, balance), balance + change)
    {
      LiquidityLimits.AcceptedIff(Data(), now, balance, change);
      if balance + change >= 0 {
        LiquidityLimits.BandIff(OpenWindow(Data(), now, balance), balance + change);
      }
      hide ChangeBps, LiquidityLimits.WithinBps;
      if now > windowStart + duration {
        windowStart := now;
        startBalance := balance;
      }
      var after := balance + change;
      if after < 0 {
        return Err(Abort);
      }
      var within := if after >= startBalance then ChangeBps(after - startBalance, startBalance) <= maxIncreaseBps
                    else ChangeBps(startBalance - after, startBalance) <= maxDecreaseBps;
      r := if within then Ok(()) else Err(NetBalanceChangeExceedsLimit);
    }
  }

  class MarketTwo {
    const financials: MarketFinancials
    const limits: LiquidityNetBalanceLimits
    const maxLpSupply: nat
    const feeTreasuryBps: nat
    const isCurrentFlashSwap: bool
    var lpSupply: nat

    function Data(): Market
      reads this, financials, limits
    {
      Market(financials.Data(), lpSupply, maxLpSupply, feeTreasuryBps, isCurrentFlashSwap, limits.Data())
    }

    constructor (m: Market)
      ensures Data() == m && fresh(financials) && fresh(limits)
    {
      financials := new MarketFinancials(m.fin);
      limits := new LiquidityNetBalanceLimits(m.limits);
      maxLpSupply, feeTreasuryBps := m.maxLpSupply, m.feeTreasuryBps;
      isCurrentFlashSwap, lpSupply := m.flashSwap, m.lpSupply;
    }

    method HandleDeposit(ptIntent: nat, syIntent: nat, minLpOut: nat, now: nat) returns (r: Result<Added, Error>)
      modifies this, financials, limits
      ensures match DepositLiquidity(old(Data()), ptIntent, syIntent, minLpOut, now)
              case Err(e) => r == Err(e)
              case Ok(m') => r == Ok(AddTo(old(Data()), syIntent, ptIntent)) && Data() == m'
      ensures r.Ok? ==> PerLpKept(old(Data()), Data()) && LiquidityLimits.InBand(limits.Data(), lpSupply)
      ensures r.Ok? ==>
                && lpSupply == old(lpSupply) + r.value.lpOut
                && FairlyAdded(r.value, syIntent, ptIntent, VLp(old(lpSupply)), VSy(old(financials.Data())),
                               VPt(old(financials.Data())))
    {
      hide FairlyAdded;
      hide TimeCurve.AddLiquidity, Markets.VerifyLimits, PerLpKept, LiquidityLimits.InBand, LiquidityLimits.WithinBps;
      if now > financials.expirationTs {
        return Err(VaultIsNotActive);
      }
      ghost var before := Data();
      var added := financials.AddLiquidity(syIntent, ptIntent, lpSupply);
      if added.lpOut < minLpOut {
        return Err(MinOutNotMet);
      }
      var ok := limits.VerifyLimits(now, lpSupply, added.lpOut);
      if ok.Err? {
        return Err(ok.error);
      }
      lpSupply := lpSupply + added.lpOut;
      if lpSupply > maxLpSupply {
        return Err(LpSupplyMaximumExceeded);
      }
      DepositKeeps(before, ptIntent, syIntent, minLpOut, now);
      r := Ok(added);
    }

    method HandleWithdraw(lpIn: nat, minPtOut: nat, minSyOut: nat, now: nat) returns (r: Result<(nat, nat), Error>)
      modifies this, financials, limits
      ensures match WithdrawLiquidity(old(Data()), lpIn, minPtOut, minSyOut, now)
              case Err(e) => r == Err(e)
              case Ok(m') => r == Ok((PtOut(old(Data()), lpIn), SyOut(old(Data()), lpIn))) && Data() == m'
      ensures r.Ok? ==> PerLpKept(old(Data()), Data()) && LiquidityLimits.InBand(limits.Data(), lpSupply)
    {
      hide ShareOf, Markets.VerifyLimits, PerLpKept, LiquidityLimits.InBand, LiquidityLimits.WithinBps;
      ghost var before := Data();
      var ok := limits.VerifyLimits(now, lpSupply, 0 - lpIn);
      if ok.Err? {
        return Err(ok.error);
      }
      var removed := financials.RmLiquidity(lpIn, lpSupply);
      if removed.Err? {
        return Err(Abort);
      }
      if removed.value.1 < minSyOut || removed.value.0 < minPtOut {
        return Err(MinOutNotMet);
      }
      lpSupply := lpSupply - lpIn;
      WithdrawKeeps(before, lpIn, minPtOut, minSyOut, now);
      r := removed;
    }

    method HandleTradePt(a: Analysis, netPt: int, syConstraint: int, now: nat, rate: Number)
      returns (r: Result<TradeResult, Error>)
      modifies financials
      ensures match TradePt(a, old(Data()), netPt, syConstraint, now, rate)
              case Err(e) => r == Err(e)
              case Ok(m') => r.Ok? && Data() == m'
      ensures r.Ok? ==> r.value.netPt == netPt && financials.ptBalance == old(financials.ptBalance) - netPt
                        && financials.syBalance == old(financials.syBalance) - r.value.netSy - r.value.treasuryFee
      ensures r.Ok? ==> rate > 0 && Quote(a, old(Data()), rate, netPt, now) == r
      ensures r.Ok? && Lawful(a) && WellConfigured(old(Data())) ==>
                MarketPricing.PaidOnCurve(a, old(Data()), rate, netPt, now, r.value)
    {
      hide Lawful, MarketPricing.PaidOnCurve;
      hide Quote, AssetBalance, Floor, FindRateAnchor, LnImpliedRate, RateScalar;
      if now > financials.expirationTs {
        return Err(Abort);
      }
      if rate == 0 {
        return Err(InvalidExchangeRate);
      }
      var quoted := Quote(a, Data(), rate, netPt, now);
      if quoted.Err? {
        return quoted;
      }
      var t := quoted.value;
      QuoteNet(a, Data(), rate, netPt, now);
      if Lawful(a) && WellConfigured(Data()) {
        MarketPricing.QuotePaysCurve(a, Data(), rate, netPt, now);
      }
      var applied := financials.ApplyTradePt(a, rate, now, t);
      if applied.Err? {
        return Err(applied.error);
      }
      if !(netPt > 0 && t.netSy < 0) && !(netPt < 0 && t.netSy > 0) {
        return Err(Abort);
      }
      if t.netSy < syConstraint {
        return Err(Abort);
      }
      r := quoted;
    }
  }
}
