/** Adding and removing liquidity: no LP gains at the others' expense, and the clamp of the real reserves. */
module MarketLiquidity {
  import opened Foundations
  import opened TimeCurve
  import opened Markets

  /** `m'` has at least as much of each virtual reserve per virtual LP token as `m`. */
  predicate PerLpKept(m: Market, m': Market) {
    && VSy(m.fin) * VLp(m'.lpSupply) <= VSy(m'.fin) * VLp(m.lpSupply)
    && VPt(m.fin) * VLp(m'.lpSupply) <= VPt(m'.fin) * VLp(m.lpSupply)
  }

  /** Nothing but balances, LP supply and the limits' window differs. */
  predicate SameCurve(m: Market, m': Market) {
    m' == m.(fin := m.fin.(pt := m'.fin.pt, sy := m'.fin.sy), lpSupply := m'.lpSupply, limits := m'.limits)
  }

  lemma DepositKeeps(m: Market, ptIntent: nat, syIntent: nat, minLpOut: nat, now: nat)
    ensures DepositLiquidity(m, ptIntent, syIntent, minLpOut, now).Ok? ==>
            var m', r := DepositLiquidity(m, ptIntent, syIntent, minLpOut, now).value, AddTo(m, syIntent, ptIntent);
            && SameCurve(m, m') && PerLpKept(m, m')
            && m'.fin.sy == m.fin.sy + r.syIn && r.syIn <= syIntent
            && m'.fin.pt == m.fin.pt + r.ptIn && r.ptIn <= ptIntent
            && m'.lpSupply == m.lpSupply + r.lpOut && r.lpOut >= minLpOut
  {
    hide AddLiquidity, VerifyLimits;
    AddLiquidityBounds(syIntent, ptIntent, VLp(m.lpSupply), VSy(m.fin), VPt(m.fin));
    var r := AddTo(m, syIntent, ptIntent);
    Distribute(VSy(m.fin), VLp(m.lpSupply), r.lpOut);
    Distribute(VLp(m.lpSupply), VSy(m.fin), r.syIn);
    Distribute(VPt(m.fin), VLp(m.lpSupply), r.lpOut);
    Distribute(VLp(m.lpSupply), VPt(m.fin), r.ptIn);
  }

  lemma RemovedKeeps(m: Market, lpIn: nat)
    requires lpIn <= m.lpSupply
    ensures PerLpKept(m, Removed(m, lpIn))
  {
    hide ShareOf;
    ShareBounds(lpIn, VLp(m.lpSupply), VSy(m.fin));
    ShareBounds(lpIn, VLp(m.lpSupply), VPt(m.fin));
    RemovedSide(VSy(m.fin), VLp(m.lpSupply), lpIn, SyOut(m, lpIn));
    RemovedSide(VPt(m.fin), VLp(m.lpSupply), lpIn, PtOut(m, lpIn));
  }

  lemma RemovedSide(reserve: nat, lp: nat, lpIn: nat, out: nat)
    requires lpIn <= lp && out <= reserve
    requires exists share: nat :: out <= share && share * lp <= reserve * lpIn
    ensures reserve * (lp - lpIn) <= (reserve - out) * lp
  {
    var share: nat :| out <= share && share * lp <= reserve * lpIn;
    MulMono(out, share, lp);
    Distribute(reserve, lp - lpIn, lpIn);
    Distribute(lp, reserve - out, out);
  }

  lemma WithdrawKeeps(m: Market, lpIn: nat, minPtOut: nat, minSyOut: nat, now: nat)
    requires WithdrawLiquidity(m, lpIn, minPtOut, minSyOut, now).Ok?
    ensures var m' := WithdrawLiquidity(m, lpIn, minPtOut, minSyOut, now).value;
            && SameCurve(m, m') && PerLpKept(m, m')
            && m'.lpSupply == m.lpSupply - lpIn
  {
    hide ShareOf, VerifyLimits;
    RemovedKeeps(m, lpIn);
  }

  /** Removing the LP tokens straight after they were minted returns at most what was put in, on each side. */
  lemma RoundTripNeverProfits(m: Market, ptIntent: nat, syIntent: nat, minLpOut: nat, now: nat)
    ensures DepositLiquidity(m, ptIntent, syIntent, minLpOut, now).Ok? ==>
            var m', r := DepositLiquidity(m, ptIntent, syIntent, minLpOut, now).value, AddTo(m, syIntent, ptIntent);
            SyOut(m', r.lpOut) <= r.syIn && PtOut(m', r.lpOut) <= r.ptIn
  {
    var r := AddTo(m, syIntent, ptIntent);
    DepositKeeps(m, ptIntent, syIntent, minLpOut, now);
    AddLiquidityBounds(syIntent, ptIntent, VLp(m.lpSupply), VSy(m.fin), VPt(m.fin));
    hide DepositLiquidity, AddLiquidity, ShareOf;
    RoundTripSide(VSy(m.fin), VLp(m.lpSupply), r.lpOut, r.syIn);
    RoundTripSide(VPt(m.fin), VLp(m.lpSupply), r.lpOut, r.ptIn);
  }

  lemma RoundTripSide(reserve: nat, lp: nat, lpOut: nat, put: nat)
    requires 0 < lp && reserve * lpOut <= put * lp
    ensures ShareOf(lpOut, lp + lpOut, reserve + put) <= put
  {
    var share := ShareOf(lpOut, lp + lpOut, reserve + put);
    ShareBounds(lpOut, lp + lpOut, reserve + put);
    hide ShareOf;
    Distribute(lpOut, reserve, put);
    Distribute(put, lp, lpOut);
    MulCancel(share, put, lp + lpOut);
  }

  // ---------- Runs of adds and removes ----------

  /** An operation and the clock and SY rate it meets. */
  datatype Timed = Timed(op: Op, now: nat, rate: nat)

  ghost function Run(a: Analysis, m: Market, ops: seq<Timed>): Market
    decreases |ops|
  {
    if ops == [] then m else Run(a, Step(a, m, ops[0].op, ops[0].now, ops[0].rate), ops[1..])
  }

  lemma PerLpJoins(m: Market, n: Market, o: Market)
    requires PerLpKept(m, n) && PerLpKept(n, o)
    ensures PerLpKept(m, o)
  {
    RatioJoins(VSy(m.fin), VLp(m.lpSupply), VSy(n.fin), VLp(n.lpSupply), VSy(o.fin), VLp(o.lpSupply));
    RatioJoins(VPt(m.fin), VLp(m.lpSupply), VPt(n.fin), VLp(n.lpSupply), VPt(o.fin), VLp(o.lpSupply));
  }

  lemma StepKeeps(a: Analysis, m: Market, t: Timed)
    requires !t.op.TradeOp?
    ensures PerLpKept(m, Step(a, m, t.op, t.now, t.rate))
  {
    hide DepositLiquidity, WithdrawLiquidity;
    if Apply(a, m, t.op, t.now, t.rate).Ok? {
      match t.op
      case DepositOp(ptIntent, syIntent, minLpOut) => DepositKeeps(m, ptIntent, syIntent, minLpOut, t.now);
      case WithdrawOp(lpIn, minPtOut, minSyOut) => WithdrawKeeps(m, lpIn, minPtOut, minSyOut, t.now);
    }
  }

  /**
   In every run of adds and removes neither virtual reserve per virtual LP token falls. So a run that
   returns the LP supply to its start leaves both reserves at least as large, and one that burns LP
   tokens takes out at most their starting share of each virtual reserve.
   */
  lemma {:induction false} LiquidityRunKeeps(a: Analysis, m: Market, ops: seq<Timed>)
    requires forall k :: 0 <= k < |ops| ==> !ops[k].op.TradeOp?
    ensures PerLpKept(m, Run(a, m, ops))
    decreases |ops|
  {
    if ops != [] {
      StepKeeps(a, m, ops[0]);
      hide Step, PerLpKept;
      LiquidityRunKeeps(a, Step(a, m, ops[0].op, ops[0].now, ops[0].rate), ops[1..]);
      PerLpJoins(m, Step(a, m, ops[0].op, ops[0].now, ops[0].rate), Run(a, m, ops));
    }
  }

  lemma LiquidityRunNetOut(a: Analysis, m: Market, ops: seq<Timed>)
    requires forall k :: 0 <= k < |ops| ==> !ops[k].op.TradeOp?
    ensures var m' := Run(a, m, ops);
            && (m'.lpSupply == m.lpSupply ==> m'.fin.sy >= m.fin.sy && m'.fin.pt >= m.fin.pt)
            && (m.fin.sy - m'.fin.sy) * VLp(m.lpSupply) <= VSy(m.fin) * (m.lpSupply - m'.lpSupply)
            && (m.fin.pt - m'.fin.pt) * VLp(m.lpSupply) <= VPt(m.fin) * (m.lpSupply - m'.lpSupply)
  {
    var m' := Run(a, m, ops);
    LiquidityRunKeeps(a, m, ops);
    hide Run;
    NetOutSide(VSy(m.fin), VSy(m'.fin), VLp(m.lpSupply), VLp(m'.lpSupply));
    NetOutSide(VPt(m.fin), VPt(m'.fin), VLp(m.lpSupply), VLp(m'.lpSupply));
  }

  lemma NetOutSide(x: int, y: int, l: int, k: int)
    requires l > 0 && x * k <= y * l
    ensures (x - y) * l <= x * (l - k)
    ensures k == l ==> x <= y
  {
    Distribute(l, x - y, y);
    Distribute(x, l - k, k);
    if k == l {
      MulCancel(x, y, l);
    }
  }

  // ---------- The clamp ----------

  /** The virtual formula asks for more of a real reserve than there is. */
  predicate ClampBites(m: Market, lpIn: nat) {
    || ShareOf(lpIn, VLp(m.lpSupply), VSy(m.fin)) > m.fin.sy
    || ShareOf(lpIn, VLp(m.lpSupply), VPt(m.fin)) > m.fin.pt
  }

  /** Each real reserve is at least the LP supply. */
  predicate Covered(m: Market) {
    m.lpSupply <= m.fin.sy && m.lpSupply <= m.fin.pt
  }

  lemma ShareAtMost(lpIn: nat, lpSupply: nat, reserve: nat)
    requires lpIn <= lpSupply
    ensures ShareOf(lpIn, VLp(lpSupply), reserve + VIRTUAL) <= ShareOf(lpSupply, VLp(lpSupply), reserve + VIRTUAL)
  {
    var l := VLp(lpSupply);
    ShareBounds(lpIn, l, reserve + VIRTUAL);
    ShareBounds(lpSupply, l, reserve + VIRTUAL);
    MulMono(lpIn, lpSupply, reserve + VIRTUAL);
    ShareOrder(ShareOf(lpIn, l, reserve + VIRTUAL), ShareOf(lpSupply, l, reserve + VIRTUAL), l,
               (reserve + VIRTUAL) * lpSupply);
  }

  lemma ShareOrder(x: nat, y: nat, l: nat, n: nat)
    requires l > 0 && x * l <= n < y * l + l
    ensures x <= y
  {
    if x > y {
      MulMono(y + 1, x, l);
    }
  }

  /** The share of all LP tokens in a reserve stays within the real reserve exactly when this holds. */
  lemma FullShareIff(lpSupply: nat, reserve: nat)
    ensures ShareOf(lpSupply, VLp(lpSupply), reserve + VIRTUAL) <= reserve
            <==> lpSupply * (VIRTUAL - 1) < (reserve + 1) * VIRTUAL
  {
    var share, l := ShareOf(lpSupply, VLp(lpSupply), reserve + VIRTUAL), VLp(lpSupply);
    ShareBounds(lpSupply, l, reserve + VIRTUAL);
    hide ShareOf;
    Distribute(lpSupply, reserve, VIRTUAL);
    Distribute(reserve + 1, lpSupply, VIRTUAL);
    assert (reserve + 1) * lpSupply == lpSupply * reserve + lpSupply;
    if share <= reserve {
      MulMono(share + 1, reserve + 1, l);
    } else {
      MulMono(reserve + 1, share, l);
    }
  }

  /**
   No removal, of any size, is ever clamped exactly when neither reserve is short of the LP supply by more
   than rounding.
   */
  lemma ClampNeverBitesIff(m: Market)
    ensures (forall lpIn: nat :: lpIn <= m.lpSupply ==> !ClampBites(m, lpIn))
            <==> (m.lpSupply * (VIRTUAL - 1) < (m.fin.sy + 1) * VIRTUAL
                  && m.lpSupply * (VIRTUAL - 1) < (m.fin.pt + 1) * VIRTUAL)
  {
    hide ShareOf;
    FullShareIff(m.lpSupply, m.fin.sy);
    FullShareIff(m.lpSupply, m.fin.pt);
    var full: nat := m.lpSupply;
    assert ClampBites(m, full) <==>
           !(full * (VIRTUAL - 1) < (m.fin.sy + 1) * VIRTUAL && full * (VIRTUAL - 1) < (m.fin.pt + 1) * VIRTUAL);
    forall lpIn: nat | lpIn <= m.lpSupply
      ensures ClampBites(m, lpIn) ==> ClampBites(m, m.lpSupply)
    {
      ShareAtMost(lpIn, m.lpSupply, m.fin.sy);
      ShareAtMost(lpIn, m.lpSupply, m.fin.pt);
    }
  }

  lemma CoveredNeverClamped(m: Market, lpIn: nat)
    requires Covered(m) && lpIn <= m.lpSupply
    ensures !ClampBites(m, lpIn)
  {
    ClampNeverBitesIff(m);
  }

  /** A covered reserve stays covered when the ratio of reserve to LP does not fall. */
  lemma CoverKept(x: nat, l: nat, y: nat, k: nat)
    requires l <= x && 0 < l && x * k <= y * l
    ensures k <= y
  {
    MulMono(l, x, k);
    MulCancel(k, y, l);
  }

  /** Once covered, always covered: through any run of adds and removes every removal is paid in full, in any order. */
  lemma CoveredForGood(a: Analysis, m: Market, ops: seq<Timed>, lpIn: nat)
    requires Covered(m) && forall k :: 0 <= k < |ops| ==> !ops[k].op.TradeOp?
    requires lpIn <= Run(a, m, ops).lpSupply
    ensures Covered(Run(a, m, ops)) && !ClampBites(Run(a, m, ops), lpIn)
  {
    var m' := Run(a, m, ops);
    LiquidityRunKeeps(a, m, ops);
    hide Run;
    CoverKept(VSy(m.fin), VLp(m.lpSupply), VSy(m'.fin), VLp(m'.lpSupply));
    CoverKept(VPt(m.fin), VLp(m.lpSupply), VPt(m'.fin), VLp(m'.lpSupply));
    CoveredNeverClamped(m', lpIn);
  }
}
