/**
 The vault's limit on interest claims: a total per window, where a window opens with the first claim after
 the last one closed.
 */
module ClaimLimits {
  import opened Foundations

  const U32_MAX: nat := 0xFFFF_FFFF

  datatype Limits = Limits(windowStart: nat, total: nat, max: nat, duration: nat)

  datatype Error = ClaimLimitExceeded | Overflow

  datatype Claim = Claim(amount: nat, now: nat)

  function OpenWindow(l: Limits, now: nat): Limits {
    if now > l.windowStart + l.duration then l.(windowStart := now, total := 0) else l
  }

  function Verify(l: Limits, amount: nat, now: nat): Result<Limits, Error> {
    if l.windowStart + l.duration > U32_MAX then Err(Overflow)
    else
      var w := OpenWindow(l, now);
      if w.total + amount > U64_MAX then Err(Overflow)
      else if w.total + amount > w.max then Err(ClaimLimitExceeded)
      else Ok(w.(total := w.total + amount))
  }

  function Step(l: Limits, c: Claim): Limits {
    match Verify(l, c.amount, c.now)
    case Ok(l') => l'
    case Err(_) => l
  }

  /** What is accepted, of a run of claims, at times from `lo` to `hi`. */
  function Accepted(l: Limits, claims: seq<Claim>, lo: nat, hi: nat): nat
    decreases |claims|
  {
    if claims == [] then 0
    else
      var c := claims[0];
      (if Verify(l, c.amount, c.now).Ok? && lo <= c.now <= hi then c.amount else 0)
          + Accepted(Step(l, c), claims[1..], lo, hi)
  }

  predicate InOrder(claims: seq<Claim>) {
    forall i, j :: 0 <= i < j < |claims| ==> claims[i].now <= claims[j].now
  }

  /** While the window lasts up to `hi`, what is still accepted is what is left of the maximum. */
  lemma {:induction false} WithinWindow(l: Limits, claims: seq<Claim>, lo: nat, hi: nat)
    requires InOrder(claims) && l.total <= l.max && hi <= l.windowStart + l.duration
    ensures Accepted(l, claims, lo, hi) <= l.max - l.total
    decreases |claims|
  {
    if claims != [] && claims[0].now <= hi {
      WithinWindow(Step(l, claims[0]), claims[1..], lo, hi);
    } else if claims != [] {
      AfterInterval(l, claims, lo, hi);
    }
  }

  lemma {:induction false} AfterInterval(l: Limits, claims: seq<Claim>, lo: nat, hi: nat)
    requires InOrder(claims) && (claims != [] ==> hi < claims[0].now)
    ensures Accepted(l, claims, lo, hi) == 0
    decreases |claims|
  {
    if claims != [] {
      AfterInterval(Step(l, claims[0]), claims[1..], lo, hi);
    }
  }

  /** Inside an interval no longer than a window at most one new window opens. */
  lemma {:induction false} FromStart(l: Limits, claims: seq<Claim>, lo: nat, hi: nat)
    requires InOrder(claims) && l.total <= l.max && hi <= lo + l.duration && (claims != [] ==> lo <= claims[0].now)
    ensures Accepted(l, claims, lo, hi) <= l.max - l.total + l.max
    decreases |claims|
  {
    if claims != [] {
      var c, next := claims[0], Step(l, claims[0]);
      if Verify(l, c.amount, c.now).Ok? && c.now > l.windowStart + l.duration {
        WithinWindow(next, claims[1..], lo, hi);
      } else {
        FromStart(next, claims[1..], lo, hi);
      }
    }
  }

  /** In any run of claims in time order, every interval no longer than the window accepts at most twice the maximum. */
  lemma {:induction false} AtMostTwicePerInterval(l: Limits, claims: seq<Claim>, lo: nat, hi: nat)
    requires InOrder(claims) && l.total <= l.max && hi <= lo + l.duration
    ensures Accepted(l, claims, lo, hi) <= 2 * l.max
    decreases |claims|
  {
    if claims != [] && claims[0].now < lo {
      AtMostTwicePerInterval(Step(l, claims[0]), claims[1..], lo, hi);
    } else {
      FromStart(l, claims, lo, hi);
    }
  }

  /** Twice the maximum is reached: a full claim as a window closes, and another one second later. */
  lemma TwiceIsReached(max: nat, duration: nat)
    requires max <= U64_MAX && duration <= U32_MAX
    ensures var claims := [Claim(max, duration), Claim(max, duration + 1)];
            InOrder(claims) && Accepted(Limits(0, 0, max, duration), claims, duration, duration + 1) == 2 * max
  {
    var l, c, d := Limits(0, 0, max, duration), Claim(max, duration), Claim(max, duration + 1);
    assert Accepted(Step(Step(l, c), d), [], duration, duration + 1) == 0;
    assert [c, d][1..] == [d] && [d][1..] == [];
  }

  // ---------- What is accepted ----------

  function Run(l: Limits, claims: seq<Claim>): Limits
    decreases |claims|
  {
    if claims == [] then l else Run(Step(l, claims[0]), claims[1..])
  }

  /** Windows move only forward, and only past the end of the last one. */
  lemma {:induction false} WindowsAdvance(l: Limits, claims: seq<Claim>)
    ensures var r := Run(l, claims);
            && (r.windowStart == l.windowStart || r.windowStart > l.windowStart + l.duration)
            && r.max == l.max && r.duration == l.duration
    decreases |claims|
  {
    if claims != [] {
      WindowsAdvance(Step(l, claims[0]), claims[1..]);
    }
  }

  /** All claims come at times from `lo` to `hi`. */
  predicate Between(claims: seq<Claim>, lo: nat, hi: nat) {
    forall k :: 0 <= k < |claims| ==> lo <= claims[k].now <= hi
  }

  /** The recorded total is what has been accepted since the window opened. */
  lemma {:induction false} TotalIsAccepted(l: Limits, claims: seq<Claim>, hi: nat)
    requires InOrder(claims) && Between(claims, l.windowStart, hi)
    ensures var r := Run(l, claims);
            r.total == Accepted(l, claims, r.windowStart, hi) + if r.windowStart == l.windowStart then l.total else 0
    decreases |claims|
  {
    if claims != [] {
      var next := Step(l, claims[0]);
      WindowsAdvance(next, claims[1..]);
      TotalIsAccepted(next, claims[1..], hi);
    }
  }

  /**
   After any run of claims in time order, a claim is accepted exactly when it and what has been accepted since the
   window opened fit the maximum; once the window has run out it is only the claim itself that has to.
   */
  lemma ClaimAcceptedIff(max: nat, duration: nat, claims: seq<Claim>, amount: nat, now: nat)
    requires max <= U64_MAX && InOrder(claims) && Between(claims, 0, now)
    ensures var l := Limits(0, 0, max, duration);
            var r := Run(l, claims);
            var used := if now > r.windowStart + duration then 0 else Accepted(l, claims, r.windowStart, now);
            Verify(r, amount, now).Ok? <==> r.windowStart + duration <= U32_MAX && used + amount <= max
  {
    WindowsAdvance(Limits(0, 0, max, duration), claims);
    TotalIsAccepted(Limits(0, 0, max, duration), claims, now);
    hide Run, Accepted;
  }

  class ClaimLimitsAccount {
    const max: nat
    const duration: nat
    var windowStart: nat
    var total: nat

    function Data(): Limits
      reads this
    {
      Limits(windowStart, total, max, duration)
    }

    constructor (max: nat, duration: nat)
      ensures Data() == Limits(0, 0, max, duration)
    {
      this.max, this.duration := max, duration;
      windowStart, total := 0, 0;
    }

    method VerifyClaimLimits(amount: nat, now: nat) returns (r: Result<(), Error>)
      modifies this
      ensures match Verify(old(Data()), amount, now)
              case Err(e) => r == Err(e)
              case Ok(l) => r == Ok(()) && Data() == l
      ensures r.Ok? ==> amount <= total <= max && old(windowStart) <= windowStart
    {
      if windowStart + duration > U32_MAX {
        return Err(Overflow);
      }
      if now > windowStart + duration {
        windowStart := now;
        total := 0;
      }
      if total + amount > U64_MAX {
        return Err(Overflow);
      }
      if total + amount > max {
        return Err(ClaimLimitExceeded);
      }
      total := total + amount;
      r := Ok(());
    }
  }
}

/** The market's limit on the LP supply: how far it may move, in basis points, from where the window opened. */
module LiquidityLimits {
  import opened Foundations
  import opened Markets
  import opened MarketLiquidity
  import opened TimeCurve

  /** `balance` is within the limits of the window's opening balance. */
  predicate InBand(l: NetLimits, balance: nat) {
    if balance >= l.startBalance then ChangeBps(balance - l.startBalance, l.startBalance) <= l.maxIncreaseBps
    else ChangeBps(l.startBalance - balance, l.startBalance) <= l.maxDecreaseBps
  }

  /**
   The same without a division: a fall, in ten-thousandths of the opening balance, is below one basis
   point more than the limit, and so is a rise unless the limit is the largest. From an empty opening
   balance only the largest limit lets the balance rise.
   */
  predicate WithinBps(l: NetLimits, balance: nat) {
    if balance >= l.startBalance then
      || l.maxIncreaseBps >= U32_MAX
      || balance == l.startBalance
      || (balance - l.startBalance) * 10_000 < (l.maxIncreaseBps + 1) * l.startBalance
    else
      || l.maxDecreaseBps >= U32_MAX
      || (l.startBalance - balance) * 10_000 < (l.maxDecreaseBps + 1) * l.startBalance
  }

  lemma BpsIff(change: nat, start: nat, limit: nat)
    ensures ChangeBps(change, start) <= limit
       <==> limit >= U32_MAX || change == 0 || change * 10_000 < (limit + 1) * start
  {
    if start > 0 {
      FloorAtMostIff(change * 10_000, start, limit);
    }
  }

  lemma FloorAtMostIff(n: nat, d: nat, q: nat)
    requires d > 0
    ensures n / d <= q <==> n < (q + 1) * d
  {
    if n < (q + 1) * d {
      DivAtMost(n, d, q);
    } else {
      DivAtLeast(n, d, q + 1);
    }
  }

  lemma BandIff(l: NetLimits, balance: nat)
    ensures InBand(l, balance) <==> WithinBps(l, balance)
  {
    hide ChangeBps;
    if balance >= l.startBalance {
      BpsIff(balance - l.startBalance, l.startBalance, l.maxIncreaseBps);
    } else {
      BpsIff(l.startBalance - balance, l.startBalance, l.maxDecreaseBps);
    }
  }

  /**
   A change is accepted exactly when the balance after it is within those bounds of the opening balance:
   of the current balance if the window has run out, of the recorded one if not.
   */
  lemma AcceptedIff(l: NetLimits, now: nat, balance: nat, change: int)
    ensures var window := if now > l.windowStart + l.duration then l.(windowStart := now, startBalance := balance)
                          else l;
            && (VerifyLimits(l, now, balance, change).Ok?
                <==> balance + change >= 0 && WithinBps(window, balance + change))
            && (VerifyLimits(l, now, balance, change).Ok? ==> VerifyLimits(l, now, balance, change).value == window)
  {
    if balance + change >= 0 {
      BandIff(OpenWindow(l, now, balance), balance + change);
    }
    hide ChangeBps, WithinBps;
  }

  lemma AcceptedInBand(l: NetLimits, now: nat, balance: nat, change: int)
    requires VerifyLimits(l, now, balance, change).Ok?
    ensures balance + change >= 0 && InBand(VerifyLimits(l, now, balance, change).value, balance + change)
  {
    hide ChangeBps;
  }

  lemma StepInBand(a: Analysis, m: Market, t: Timed)
    requires InBand(m.limits, m.lpSupply)
    ensures var m' := Step(a, m, t.op, t.now, t.rate);
            InBand(m'.limits, m'.lpSupply)
  {
    hide AddLiquidity, InBand, Quote, ApplyTrade, Removed, VerifyLimits;
    if Apply(a, m, t.op, t.now, t.rate).Ok? {
      match t.op
      case DepositOp(ptIntent, syIntent, minLpOut) =>
        AcceptedInBand(m.limits, t.now, m.lpSupply, AddTo(m, syIntent, ptIntent).lpOut);
      case WithdrawOp(lpIn, minPtOut, minSyOut) =>
        AcceptedInBand(m.limits, t.now, m.lpSupply, 0 - lpIn);
        RemovedShape(m, lpIn);
      case TradeOp(_, _) =>
    }
  }

  lemma RemovedShape(m: Market, lpIn: nat)
    requires lpIn <= m.lpSupply
    ensures Removed(m, lpIn).lpSupply == m.lpSupply - lpIn && Removed(m, lpIn).limits == m.limits
  {
    hide ShareOf;
  }

  /**
   Through any run of trades, adds and removes, however they are split up, the LP supply stays within
   the limits of the balance the current window opened with.
   */
  lemma {:induction false} SupplyStaysInBand(a: Analysis, m: Market, ops: seq<Timed>)
    requires InBand(m.limits, m.lpSupply)
    ensures InBand(Run(a, m, ops).limits, Run(a, m, ops).lpSupply)
    decreases |ops|
  {
    if ops != [] {
      StepInBand(a, m, ops[0]);
      hide Step, InBand;
      SupplyStaysInBand(a, Step(a, m, ops[0].op, ops[0].now, ops[0].rate), ops[1..]);
    }
  }

  /** Within the band the supply has fallen by less than one basis point more than the limit. */
  lemma BandBoundsDrawdown(l: NetLimits, balance: nat)
    requires l.maxDecreaseBps < U32_MAX && InBand(l, balance) && balance < l.startBalance
    ensures (l.startBalance - balance) * 10_000 < (l.maxDecreaseBps + 1) * l.startBalance
  {
    var d, s := l.startBalance - balance, l.startBalance;
    DivBounds(d * 10_000, s);
    var q := d * 10_000 / s;
    assert q <= l.maxDecreaseBps;
    MulMono(q + 1, l.maxDecreaseBps + 1, s);
    Distribute(s, q, 1);
  }
}
