/**
 The PT/SY market as transitions on values.

 The curve reads reserves and LP supply raised by constant virtual amounts. Rates and curve
 parameters are exact reals where the program uses f64. A transition that returns an error stands
 for a transaction the runtime rolls back.
 */
module Markets {
  import opened Foundations
  import opened Numbers
  import opened TimeCurve

  /** The virtual PT reserve, SY reserve and LP supply are the same constant. */
  const VIRTUAL: nat := 1_000_000

  const U32_MAX: nat := 0xFFFF_FFFF

  datatype Financials = Financials(
    expirationTs: nat,
    pt: nat,
    sy: nat,
    lnFeeRateRoot: real,
    lastLnImpliedRate: real,
    rateScalarRoot: real)

  /** Limits, in basis points, on how far the LP supply may move within a time window. */
  datatype NetLimits = NetLimits(windowStart: nat, startBalance: nat, maxDecreaseBps: nat, maxIncreaseBps: nat,
                                 duration: nat)

  datatype Market = Market(
    fin: Financials,
    lpSupply: nat,
    maxLpSupply: nat,
    feeTreasuryBps: nat,
    flashSwap: bool,
    limits: NetLimits)

  datatype Error =
    | VaultIsNotActive
    | MinOutNotMet
    | NetBalanceChangeExceedsLimit
    | LpSupplyMaximumExceeded
    | InvalidExchangeRate
    | Abort

  // ---------- Reserves ----------

  function VPt(f: Financials): nat {
    f.pt + VIRTUAL
  }

  function VSy(f: Financials): nat {
    f.sy + VIRTUAL
  }

  function VLp(lpSupply: nat): nat {
    lpSupply + VIRTUAL
  }

  function SecRemaining(f: Financials, now: nat): nat {
    SatSub(f.expirationTs, now)
  }

  function AssetBalance(f: Financials, rate: Number): Number {
    Mul(FromNatural(VSy(f)), rate)
  }

  // ---------- Net balance limits ----------

  /** A change relative to the window's opening balance, in whole basis points, saturating at u32. */
  function ChangeBps(change: nat, start: nat): nat {
    if start == 0 then (if change == 0 then 0 else U32_MAX)
    else Min(change * 10_000 / start, U32_MAX)
  }

  function OpenWindow(l: NetLimits, now: nat, balance: nat): NetLimits {
    if now > l.windowStart + l.duration then l.(windowStart := now, startBalance := balance) else l
  }

  function VerifyLimits(l: NetLimits, now: nat, balance: nat, change: int): Result<NetLimits, Error> {
    var w := OpenWindow(l, now, balance);
    var after := balance + change;
    if after < 0 then Err(Abort)
    else if after >= w.startBalance then
      if ChangeBps(after - w.startBalance, w.startBalance) <= w.maxIncreaseBps then Ok(w)
      else Err(NetBalanceChangeExceedsLimit)
    else if ChangeBps(w.startBalance - after, w.startBalance) <= w.maxDecreaseBps then Ok(w)
    else Err(NetBalanceChangeExceedsLimit)
  }

  // ---------- Liquidity ----------

  function AddTo(m: Market, syIntent: nat, ptIntent: nat): Added {
    AddLiquidity(syIntent, ptIntent, VLp(m.lpSupply), VSy(m.fin), VPt(m.fin))
  }

  function DepositLiquidity(m: Market, ptIntent: nat, syIntent: nat, minLpOut: nat, now: nat): Result<Market, Error> {
    if now > m.fin.expirationTs then Err(VaultIsNotActive)
    else
      var r := AddTo(m, syIntent, ptIntent);
      if r.lpOut < minLpOut then Err(MinOutNotMet)
      else
        var limits :- VerifyLimits(m.limits, now, m.lpSupply, r.lpOut);
        if m.lpSupply + r.lpOut > m.maxLpSupply then Err(LpSupplyMaximumExceeded)
        else Ok(m.(fin := m.fin.(pt := m.fin.pt + r.ptIn, sy := m.fin.sy + r.syIn),
                   lpSupply := m.lpSupply + r.lpOut,
                   limits := limits))
  }

  /** What LP tokens withdraw: their share of the virtual reserves, clamped to the real ones. */
  function PtOut(m: Market, lpIn: nat): nat {
    Min(ShareOf(lpIn, VLp(m.lpSupply), VPt(m.fin)), m.fin.pt)
  }

  function SyOut(m: Market, lpIn: nat): nat {
    Min(ShareOf(lpIn, VLp(m.lpSupply), VSy(m.fin)), m.fin.sy)
  }

  function Removed(m: Market, lpIn: nat): Market
    requires lpIn <= m.lpSupply
  {
    m.(fin := m.fin.(pt := m.fin.pt - PtOut(m, lpIn), sy := m.fin.sy - SyOut(m, lpIn)), lpSupply := m.lpSupply - lpIn)
  }

  function WithdrawLiquidity(m: Market, lpIn: nat, minPtOut: nat, minSyOut: nat, now: nat): Result<Market, Error> {
    var limits :- VerifyLimits(m.limits, now, m.lpSupply, 0 - lpIn);
    if lpIn > m.lpSupply then Err(Abort)
    else if SyOut(m, lpIn) < minSyOut || PtOut(m, lpIn) < minPtOut then Err(MinOutNotMet)
    else Ok(Removed(m, lpIn).(limits := limits))
  }

  // ---------- Trades ----------

  datatype TradeResult = TradeResult(netPt: int, netSy: int, syFee: nat, treasuryFee: nat)

  function SyFloor(asset: nat, rate: Number): nat
    requires rate > 0
  {
    Floor(Div(FromNatural(asset), rate))
  }

  function SyCeil(asset: nat, rate: Number): nat
    requires rate > 0
  {
    Ceil(Div(FromNatural(asset), rate))
  }

  /** Asset units become SY units rounded against the trader: floored on the way out, ceiled on the way in. */
  function NetTraderSy(netAsset: real, rate: Number): int
    requires rate > 0
  {
    var asset := Abs(netAsset.Floor);
    if netAsset < 0.0 then 0 - SyCeil(asset, rate) else SyFloor(asset, rate)
  }

  function SyFee(assetFee: real, rate: Number): nat
    requires rate > 0
  {
    ToU64(assetFee / (rate as real / ONE as real))
  }

  /**
   The outcome of a trade, without changing the market. With no time remaining the f64 rate scalar is
   the largest number, every exchange rate is one, and the library's assertion rejects the trade; so
   does a reserve worth less than one unit of asset, whose logit is not a number.
   */
  function Quote(a: Analysis, m: Market, rate: Number, netPt: int, now: nat): Result<TradeResult, Error>
    requires rate > 0
  {
    var sec, floor := SecRemaining(m.fin, now), Floor(AssetBalance(m.fin, rate));
    if sec == 0 || floor == 0 || m.fin.rateScalarRoot == 0.0 then Err(Abort)
    else
      var asset := if netPt > 0 then Ceil(AssetBalance(m.fin, rate)) else floor;
      ScalarNonZero(m.fin.rateScalarRoot, sec);
      var scalar := RateScalar(m.fin.rateScalarRoot, sec);
      var anchor := FindRateAnchor(a, VPt(m.fin), floor, scalar, m.fin.lastLnImpliedRate, sec);
      match Trade(a, VPt(m.fin), asset, scalar, anchor, FeeRate(a, m.fin.lnFeeRateRoot, sec), netPt, m.flashSwap)
      case Rejected => Err(Abort)
      case Priced(t) =>
        var syFee := SyFee(t.fee, rate);
        Ok(TradeResult(netPt, NetTraderSy(t.netAsset, rate), syFee, syFee * m.feeTreasuryBps / 10_000))
  }

  lemma ScalarNonZero(root: real, sec: nat)
    requires sec > 0 && root != 0.0
    ensures RateScalar(root, sec) != 0.0
    ensures root > 0.0 ==> RateScalar(root, sec) > 0.0
  {
  }

  /**
   Moves the balances first, then recomputes the anchor from the new balances and the old rate, and stores
   what it implies.
   */
  function ApplyTrade(a: Analysis, f: Financials, rate: Number, now: nat, t: TradeResult): Result<Financials, Error>
    requires rate > 0
  {
    var moved := Abs(t.netSy);
    if (if t.netPt > 0 then f.pt < t.netPt || f.sy + moved < t.treasuryFee else f.sy < moved + t.treasuryFee)
        then Err(Abort)
    else
      var f' := if t.netPt > 0 then f.(pt := f.pt - t.netPt, sy := f.sy + moved - t.treasuryFee)
                else f.(pt := f.pt - t.netPt, sy := f.sy - moved - t.treasuryFee);
      var sec, floor := SecRemaining(f', now), Floor(AssetBalance(f', rate));
      if sec == 0 || floor == 0 || f.rateScalarRoot == 0.0 then Err(Abort)
      else
        ScalarNonZero(f.rateScalarRoot, sec);
        var scalar := RateScalar(f.rateScalarRoot, sec);
        var anchor := FindRateAnchor(a, VPt(f'), floor, scalar, f.lastLnImpliedRate, sec);
        Ok(f'.(lastLnImpliedRate := LnImpliedRate(a, VPt(f'), floor, scalar, anchor, sec)))
  }

  /** A positive `netPt` buys PT with SY, a negative one sells it. */
  function TradePt(a: Analysis, m: Market, netPt: int, syConstraint: int, now: nat, rate: Number)
    : Result<Market, Error>
  {
    if now > m.fin.expirationTs then Err(Abort)
    else if rate == 0 then Err(InvalidExchangeRate)
    else
      var t :- Quote(a, m, rate, netPt, now);
      var fin :- ApplyTrade(a, m.fin, rate, now, t);
      if !(netPt > 0 && t.netSy < 0) && !(netPt < 0 && t.netSy > 0) then Err(Abort)
      else if t.netSy < syConstraint then Err(Abort)
      else Ok(m.(fin := fin))
  }

  // ---------- Runs ----------

  datatype Op =
    | DepositOp(ptIntent: nat, syIntent: nat, minLpOut: nat)
    | WithdrawOp(lpIn: nat, minPtOut: nat, minSyOut: nat)
    | TradeOp(netPt: int, syConstraint: int)

  function Apply(a: Analysis, m: Market, op: Op, now: nat, rate: Number): Result<Market, Error> {
    match op
    case DepositOp(ptIntent, syIntent, minLpOut) => DepositLiquidity(m, ptIntent, syIntent, minLpOut, now)
    case WithdrawOp(lpIn, minPtOut, minSyOut) => WithdrawLiquidity(m, lpIn, minPtOut, minSyOut, now)
    case TradeOp(netPt, syConstraint) => TradePt(a, m, netPt, syConstraint, now, rate)
  }

  function Step(a: Analysis, m: Market, op: Op, now: nat, rate: Number): Market {
    match Apply(a, m, op, now, rate)
    case Ok(m') => m'
    case Err(_) => m
  }
}
