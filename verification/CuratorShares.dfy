/** What holds of the curator's shares over every run. */
module CuratorShares {
  import opened Foundations
  import opened RealFacts
  import opened MapSums
  import opened CuratorVaults

  // ---------- The positions add up ----------

  /** The share supply is exactly what the positions hold. */
  ghost predicate Inv(v: Vault) {
    v.supply == Sum(v.shares)
  }

  lemma HeldWithin(v: Vault, owner: Pubkey)
    requires Inv(v)
    ensures SharesOf(v, owner) <= v.supply
  {
    if owner in v.shares {
      SumCovers(v.shares, owner);
    } else {
      SumNonNegative(v.shares);
    }
  }

  lemma StepInv(v: Vault, op: Op)
    requires Inv(v)
    ensures Inv(Step(v, op))
  {
    hide SharesFor, AssetsFor, FeeOn, FeeShares;
    match op
    case DepositOp(owner, amount) =>
      SumPut(v.shares, owner, SharesOf(v, owner) + SharesFor(v.assets, v.supply, amount));
    case WithdrawOp(owner, shares) =>
      SumPut(v.shares, owner, SharesOf(v, owner) - shares);
    case HarvestOp(current) =>
      HeldWithin(v, v.curator);
      SumPut(v.shares, v.curator, FeeOn(v, current));
      if FeeOn(v, current) < current {
        SumPut(v.shares, v.curator, SharesOf(v, v.curator) + FeeShares(v.supply, FeeOn(v, current), current));
      }
    case MarkOp(_, _) =>
  }

  /** From an opened vault, through any run, the share supply is the sum of the positions. */
  lemma {:induction false} RunInv(v: Vault, ops: seq<Op>)
    requires Inv(v)
    ensures Inv(Run(v, ops))
    decreases |ops|
  {
    if ops != [] {
      StepInv(v, ops[0]);
      RunInv(Step(v, ops[0]), ops[1..]);
    }
  }

  lemma SharesAddUp(curator: Pubkey, feeBps: nat, ops: seq<Op>)
    requires feeBps <= MAX_FEE_BPS
    ensures Inv(Run(NewVault(curator, feeBps).value, ops))
  {
    RunInv(NewVault(curator, feeBps).value, ops);
  }

  /**
   So a harvest only ever adds to the curator's position, never wipes it: when there are no shares the
   position it overwrites is empty. Every other position keeps its shares.
   */
  lemma HarvestOnlyAdds(v: Vault, current: nat)
    requires Inv(v) && Harvest(v, current).Ok?
    ensures var v' := Harvest(v, current).value;
            && v'.supply >= v.supply
            && SharesOf(v', v.curator) - SharesOf(v, v.curator) == v'.supply - v.supply
            && (forall k :: k != v.curator ==> SharesOf(v', k) == SharesOf(v, k))
            && v'.assets == v'.lastHarvest == current && v'.escrow == v.escrow
  {
    hide FeeOn, FeeShares;
    HeldWithin(v, v.curator);
  }

  // ---------- The price of a share ----------

  /** A share is worth at least as much after as before. */
  predicate PriceKept(v: Vault, v': Vault) {
    (v.assets + VIRTUAL) * (v'.supply + VIRTUAL) <= (v'.assets + VIRTUAL) * (v.supply + VIRTUAL)
  }

  lemma CutDown(n: nat)
    ensures AsU64(n) <= n
    ensures n <= U64_MAX ==> AsU64(n) == n
  {
  }

  /** What is handed out multiplied by the divisor is at most the dividend. */
  lemma HandedOut(x: nat, n: nat, d: nat, out: nat)
    requires d > 0 && out == AsU64(x * n / d)
    ensures out * d <= x * n
  {
    hide AsU64;
    CutDown(x * n / d);
    DivBounds(x * n, d);
    MulMono(out, x * n / d, d);
  }

  lemma DepositKeepsPrice(v: Vault, owner: Pubkey, amount: nat)
    ensures Deposit(v, owner, amount).Ok? ==> PriceKept(v, Deposit(v, owner, amount).value)
  {
    var s, a, out := v.supply + VIRTUAL, v.assets + VIRTUAL, SharesFor(v.assets, v.supply, amount);
    HandedOut(amount, s, a, out);
    hide SharesFor;
    DepositPrice(a, s, amount, out);
  }

  lemma DepositPrice(a: nat, s: nat, amount: nat, out: nat)
    requires out * a <= amount * s
    ensures a * (s + out) <= (a + amount) * s
  {
    Distribute(a, s, out);
    Distribute(s, a, amount);
  }

  lemma WithdrawKeepsPrice(v: Vault, owner: Pubkey, shares: nat)
    ensures Withdraw(v, owner, shares).Ok? ==> PriceKept(v, Withdraw(v, owner, shares).value)
  {
    var s, a, out := v.supply + VIRTUAL, v.assets + VIRTUAL, AssetsFor(v.assets, v.supply, shares);
    HandedOut(shares, a, s, out);
    hide AssetsFor;
    if Withdraw(v, owner, shares).Ok? {
      WithdrawPrice(a, s, shares, out);
    }
  }

  lemma WithdrawPrice(a: nat, s: nat, shares: nat, out: nat)
    requires out * s <= shares * a
    ensures a * (s - shares) <= (a - out) * s
  {
    Distribute(a, s - shares, shares);
    Distribute(s, a - out, out);
  }

  predicate Dealing(op: Op) {
    op.DepositOp? || op.WithdrawOp?
  }

  lemma StepKeepsPrice(v: Vault, op: Op)
    requires Dealing(op)
    ensures PriceKept(v, Step(v, op))
  {
    hide Deposit, Withdraw;
    if Apply(v, op).Ok? {
      match op
      case DepositOp(owner, amount) => DepositKeepsPrice(v, owner, amount);
      case WithdrawOp(owner, shares) => WithdrawKeepsPrice(v, owner, shares);
    }
  }

  /** No run of deposits and withdrawals, by anyone, lowers the price of a share. */
  lemma {:induction false} DealingKeepsPrice(v: Vault, ops: seq<Op>)
    requires forall k :: 0 <= k < |ops| ==> Dealing(ops[k])
    ensures PriceKept(v, Run(v, ops))
    decreases |ops|
  {
    if ops != [] {
      StepKeepsPrice(v, ops[0]);
      var w := Step(v, ops[0]);
      hide Step;
      DealingKeepsPrice(w, ops[1..]);
      var x := Run(v, ops);
      RatioJoins(v.assets + VIRTUAL, v.supply + VIRTUAL, w.assets + VIRTUAL, w.supply + VIRTUAL, x.assets + VIRTUAL,
                 x.supply + VIRTUAL);
    }
  }

  /** The value of a holding, before the cut to 64 bits. */
  function Claim(v: Vault, shares: nat): nat {
    ClaimAt(v.assets, v.supply, shares)
  }

  function ClaimAt(assets: nat, supply: nat, shares: nat): nat {
    shares * (assets + VIRTUAL) / (supply + VIRTUAL)
  }

  /** So what a holder's shares redeem for never falls while others deposit and withdraw. */
  lemma HoldingNeverLoses(v: Vault, ops: seq<Op>, shares: nat)
    requires forall k :: 0 <= k < |ops| ==> Dealing(ops[k])
    ensures Claim(Run(v, ops), shares) >= Claim(v, shares)
  {
    DealingKeepsPrice(v, ops);
    var w := Run(v, ops);
    hide Run;
    ClaimOrdered(shares, v.assets + VIRTUAL, v.supply + VIRTUAL, w.assets + VIRTUAL, w.supply + VIRTUAL);
  }

  lemma ClaimOrdered(x: nat, a: nat, s: nat, b: nat, t: nat)
    requires 0 < s && 0 < t && a * t <= b * s
    ensures x * a / s <= x * b / t
  {
    var q := x * a / s;
    DivBounds(x * a, s);
    RatioJoins(q, x, a, s, b, t);
    DivAtLeast(x * b, t, q);
  }

  /** Withdrawing the shares straight after they were minted returns at most what was deposited. */
  lemma RoundTripNeverProfits(v: Vault, owner: Pubkey, amount: nat)
    ensures Deposit(v, owner, amount).Ok? ==>
            var v', out := Deposit(v, owner, amount).value, SharesFor(v.assets, v.supply, amount);
            AssetsFor(v'.assets, v'.supply, out) <= Claim(v', out) <= amount
  {
    var s, a, out := v.supply + VIRTUAL, v.assets + VIRTUAL, SharesFor(v.assets, v.supply, amount);
    HandedOut(amount, s, a, out);
    CutDown(ClaimAt(v.assets + amount, v.supply + out, out));
    hide SharesFor, AsU64;
    RoundTripOf(out, a, s, amount);
  }

  lemma RoundTripOf(out: nat, a: nat, s: nat, amount: nat)
    requires 0 < s && out * a <= amount * s
    ensures out * (a + amount) / (s + out) <= amount
  {
    Distribute(out, a, amount);
    Distribute(amount, s, out);
    Distribute(s + out, amount, 1);
    DivAtMost(out * (a + amount), s + out, amount);
  }

  // ---------- Paying out ----------

  /** Every share stands for at least one unit of assets. */
  predicate Backed(v: Vault) {
    v.supply <= v.assets
  }

  lemma FullClaim(a: nat, s: nat, q: nat)
    requires q * (s + VIRTUAL) <= s * (a + VIRTUAL) < q * (s + VIRTUAL) + (s + VIRTUAL)
    ensures q <= a <==> s * (VIRTUAL - 1) < (a + 1) * VIRTUAL
  {
    Distribute(s, a, VIRTUAL);
    Distribute(a + 1, s, VIRTUAL);
    assert (a + 1) * s == s * a + s;
    if q <= a {
      MulMono(q + 1, a + 1, s + VIRTUAL);
    } else {
      MulMono(a + 1, q, s + VIRTUAL);
    }
  }

  lemma FullClaimIff(v: Vault)
    ensures Claim(v, v.supply) <= v.assets <==> v.supply * (VIRTUAL - 1) < (v.assets + 1) * VIRTUAL
  {
    DivBounds(v.supply * (v.assets + VIRTUAL), v.supply + VIRTUAL);
    FullClaim(v.assets, v.supply, Claim(v, v.supply));
  }

  /**
   The last holder can take everything out, the escrow permitting, exactly when the assets fall short of the
   shares by no more than rounding.
   */
  lemma LastWithdrawalIff(v: Vault, owner: Pubkey)
    requires Inv(v) && owner in v.shares && v.shares[owner] == v.supply > 0
    requires v.assets + VIRTUAL <= U64_MAX && v.supply <= U64_MAX && v.escrow >= v.assets
    ensures Withdraw(v, owner, v.supply).Ok? <==> v.supply * (VIRTUAL - 1) < (v.assets + 1) * VIRTUAL
    ensures Withdraw(v, owner, v.supply).Err? ==> Withdraw(v, owner, v.supply).error == InsufficientAssets
  {
    FullClaimIff(v);
    ProductFits(v.supply, v.assets + VIRTUAL);
    ClaimBelowAll(v.supply, v.assets + VIRTUAL, v.supply + VIRTUAL);
    CutDown(v.supply * (v.assets + VIRTUAL) / (v.supply + VIRTUAL));
    hide AsU64;
  }

  lemma ClaimBelowAll(x: nat, n: nat, d: nat)
    requires x <= d && 0 < d
    ensures x * n / d <= n
  {
    MulMono(x, d, n);
    Distribute(d, n, 1);
    DivAtMost(x * n, d, n);
  }

  lemma ProductFits(x: nat, y: nat)
    requires x <= U64_MAX && y <= U64_MAX
    ensures x * y <= U128_MAX
  {
    MulMono(x, U64_MAX, y);
    MulMono(y, U64_MAX, U64_MAX);
  }

  lemma RatioBacked(a: nat, s: nat, b: nat, t: nat)
    requires s <= a && 0 < s && a * t <= b * s
    ensures t <= b
  {
    MulMono(s, a, t);
    MulCancel(t, b, s);
  }

  /** Deposits and withdrawals keep the vault backed. */
  lemma DealingKeepsBacked(v: Vault, ops: seq<Op>)
    requires Backed(v) && forall k :: 0 <= k < |ops| ==> Dealing(ops[k])
    ensures Backed(Run(v, ops))
  {
    DealingKeepsPrice(v, ops);
    hide Run;
    RatioBacked(v.assets + VIRTUAL, v.supply + VIRTUAL, Run(v, ops).assets + VIRTUAL, Run(v, ops).supply + VIRTUAL);
  }

  /** A backed vault whose assets are all in the escrow and within u64. */
  ghost predicate Payable(v: Vault) {
    Inv(v) && Backed(v) && v.assets <= v.escrow && v.assets + VIRTUAL <= U64_MAX
  }

  lemma ClaimWithin(v: Vault, shares: nat)
    requires Backed(v) && shares <= v.supply
    ensures Claim(v, shares) <= v.assets
  {
    FullClaimIff(v);
    MulMono(shares, v.supply, v.assets + VIRTUAL);
    var n, d, q := shares * (v.assets + VIRTUAL), v.supply + VIRTUAL, Claim(v, v.supply);
    DivBounds(v.supply * (v.assets + VIRTUAL), d);
    Distribute(d, q, 1);
    assert (q + 1) * d == d * q + d;
    DivAtMost(n, d, q);
  }

  lemma PayableWithdraw(v: Vault, owner: Pubkey, shares: nat)
    requires Payable(v) && owner in v.shares && 0 < shares <= v.shares[owner]
    ensures Withdraw(v, owner, shares).Ok? && Payable(Withdraw(v, owner, shares).value)
  {
    HeldWithin(v, owner);
    ClaimWithin(v, shares);
    ProductFits(shares, v.assets + VIRTUAL);
    CutDown(Claim(v, shares));
    WithdrawKeepsPrice(v, owner, shares);
    StepInv(v, WithdrawOp(owner, shares));
    var w := Withdraw(v, owner, shares).value;
    hide AsU64;
    RatioBacked(v.assets + VIRTUAL, v.supply + VIRTUAL, w.assets + VIRTUAL, w.supply + VIRTUAL);
  }

  /** Each of the owners in turn withdraws all the shares held; nobody is refused. */
  ghost predicate AllPaid(v: Vault, owners: seq<Pubkey>)
    decreases |owners|
  {
    owners != [] ==>
      && (SharesOf(v, owners[0]) > 0 ==> Withdraw(v, owners[0], SharesOf(v, owners[0])).Ok?)
      && AllPaid(Step(v, WithdrawOp(owners[0], SharesOf(v, owners[0]))), owners[1..])
  }

  /** Everyone can leave with everything, in any order. */
  lemma {:induction false} EveryoneCanLeave(v: Vault, owners: seq<Pubkey>)
    requires Payable(v)
    ensures AllPaid(v, owners)
    decreases |owners|
  {
    if owners != [] {
      var shares := SharesOf(v, owners[0]);
      if shares > 0 {
        PayableWithdraw(v, owners[0], shares);
      }
      EveryoneCanLeave(Step(v, WithdrawOp(owners[0], shares)), owners[1..]);
    }
  }

  // ---------- Fees ----------

  lemma FeeWithinGain(v: Vault, current: nat)
    requires v.feeBps <= MAX_FEE_BPS
    ensures FeeOn(v, current) * 5 <= SatSub(current, v.lastHarvest) <= current
  {
    var gain := SatSub(current, v.lastHarvest);
    MulMono(v.feeBps, MAX_FEE_BPS, gain);
    CutDown(gain * v.feeBps / 10_000);
  }

  /** Fee shares redeem for at most the fee when the shares outstanding do not exceed the assets less the fee. */
  lemma FeeSharesRedeemWithinFee(assets: nat, supply: nat, fee: nat)
    requires 0 < fee < assets && supply <= assets - fee
    ensures var minted := FeeShares(supply, fee, assets);
            && minted <= fee && supply + minted <= assets
            && minted * (assets + VIRTUAL) <= fee * (supply + minted + VIRTUAL)
            && minted * (assets + VIRTUAL) / (supply + minted + VIRTUAL) <= fee
  {
    var rest, x := assets - fee, FeeShares(supply, fee, assets);
    HandedOut(supply, fee, rest, x);
    hide FeeShares;
    MulMono(supply, rest, fee);
    MulCancel(x, fee, rest);
    WithinFee(rest, supply, fee, x);
    DivAtMost(x * (assets + VIRTUAL), supply + x + VIRTUAL, fee);
  }

  lemma WithinFee(rest: nat, supply: nat, fee: nat, x: nat)
    requires x * rest <= supply * fee && x <= fee
    ensures x * (rest + fee + VIRTUAL) <= fee * (supply + x + VIRTUAL)
  {
    assert x * (rest + fee + VIRTUAL) == x * rest + x * fee + x * VIRTUAL;
    assert fee * (supply + x + VIRTUAL) == supply * fee + x * fee + fee * VIRTUAL;
  }

  /** So a harvest takes at most the fee from the other holders' joint claim, and keeps the vault backed. */
  lemma HarvestDilutesWithinFee(v: Vault, current: nat)
    requires v.feeBps <= MAX_FEE_BPS && v.supply <= current - FeeOn(v, current) && Harvest(v, current).Ok?
    ensures var v' := Harvest(v, current).value;
            && Backed(v')
            && Claim(v.(assets := current), v.supply) - Claim(v', v.supply) <= FeeOn(v, current)
  {
    FeeWithinGain(v, current);
    var fee := FeeOn(v, current);
    hide FeeOn;
    if fee > 0 && v.supply > 0 {
      FeeSharesRedeemWithinFee(current, v.supply, fee);
      hide FeeShares, ClaimAt;
      ClaimsDiluted(current, v.supply, FeeShares(v.supply, fee, current), fee);
    }
  }

  lemma ClaimsDiluted(assets: nat, supply: nat, x: nat, fee: nat)
    requires x * (assets + VIRTUAL) <= fee * (supply + x + VIRTUAL)
    ensures ClaimAt(assets, supply, supply) - ClaimAt(assets, supply + x, supply) <= fee
  {
    DilutionWithin(supply, assets + VIRTUAL, supply + VIRTUAL, x, fee, supply * (assets + VIRTUAL));
  }

  /** What `s` tokens lose when `x` more share the same `n` is at most what those `x` are worth. */
  lemma DilutionWithin(s: nat, n: nat, d: nat, x: nat, fee: nat, sn: nat)
    requires s <= d && d > 0 && x * n <= fee * (d + x) && sn == s * n
    ensures sn / d - sn / (d + x) <= fee
  {
    DivBounds(sn, d);
    DivBounds(sn, d + x);
    DilutedOf(s, n, d, x, fee, sn / d, sn / (d + x));
  }

  lemma DilutedOf(s: nat, n: nat, d: nat, x: nat, fee: nat, p: nat, q: nat)
    requires s <= d && d > 0 && x * n <= fee * (d + x)
    requires d * p <= s * n < (d + x) * q + (d + x)
    ensures p - q <= fee
  {
    DilutedBound(s, n, d, x, p);
    Diluted(p, q, d + x, fee, s * n);
  }

  lemma Diluted(p: nat, q: nat, e: nat, fee: nat, sn: nat)
    requires 0 < e && e * p <= sn + fee * e && sn < e * q + e
    ensures p <= q + fee
  {
    Distribute(e, q, fee + 1);
    Distribute(e, fee, 1);
    if p > q + fee {
      MulMono(q + fee + 1, p, e);
    }
  }

  lemma DilutedBound(s: nat, n: nat, d: nat, x: nat, p: nat)
    requires s <= d && d > 0 && d * p <= s * n
    ensures (d + x) * p <= s * n + x * n
  {
    Distribute(p, d, x);
    MulMono(s, d, n);
    MulCancel(p, n, d);
    MulMono(p, n, x);
  }

  /**
   Before rounding, the fee shares are worth no more than the fee exactly when the supply is within the
   assets less the fee.
   */
  lemma FeeValueIff(assets: real, supply: real, fee: real)
    requires 0.0 < fee < assets && supply > 0.0
    ensures var x := supply * fee / (assets - fee);
            && x > 0.0
            && (x * (assets + VIRTUAL as real) / (supply + x + VIRTUAL as real) <= fee <==> supply <= assets - fee)
  {
    var x, rest, k := supply * fee / (assets - fee), assets - fee, VIRTUAL as real;
    MulStrictReal(supply, 0.0, fee, 0.0, supply * fee);
    QuotientAtMost(supply * fee, rest, 0.0);
    QuotientAtMost(supply * fee, rest, fee);
    FactorOrder(fee, supply, rest);
    QuotientTimes(supply * fee, rest);
    FeeValueOf(assets, supply, fee, x, k);
  }

  lemma FeeValueOf(assets: real, supply: real, fee: real, x: real, k: real)
    requires supply > 0.0 && x > 0.0 && k > 0.0 && x * (assets - fee) == supply * fee
    ensures x * (assets + k) / (supply + x + k) <= fee <==> x <= fee
  {
    QuotientAtMost(x * (assets + k), supply + x + k, fee);
    assert x * (assets + k) == x * (assets - fee) + x * fee + x * k;
    assert fee * (supply + x + k) == supply * fee + x * fee + k * fee;
    FactorOrder(k, x, fee);
  }

  lemma FactorOrder(t: real, x: real, y: real)
    requires t > 0.0
    ensures x * t <= t * y <==> x <= y
  {
    if x <= y {
      MulMonoReal(t, x, y);
    } else {
      MulStrictReal(t, y, x, t * y, t * x);
    }
  }

  lemma QuotientAtMost(n: real, d: real, q: real)
    requires d > 0.0
    ensures n / d <= q <==> n <= q * d
  {
    QuotientTimes(n, d);
    FactorOrder(d, n / d, q);
  }

  /** With rounding it fails too: a fee of one percent of the assets can redeem for nearly twice as much. */
  lemma FeeSharesCanRedeemForMore()
    ensures var minted := FeeShares(10_000_000, 10_000, 1_000_000);
            minted == 101_010 && minted * (1_000_000 + VIRTUAL) / (10_000_000 + minted + VIRTUAL) == 18_198
  {
  }

  /**
   Such a harvest happens on a vault in use, reached here by a run from a new one: a deposit, a harvest whose
   shares the curator withdraws, a loss in the markets and a harvest that finds no gain. With more than ten
   shares left for each unit of assets, a harvest of a fee of 10 000 gives the curator shares that can be
   withdrawn at once for 18 198.
   */
  lemma HarvestCanOverpay(v: Vault)
    requires v == Run(NewVault(0, 1_000).value,
                      [DepositOp(1, 10_000_000), HarvestOp(10_000_000), WithdrawOp(0, 1_111_111),
                       MarkOp(900_000, 1_000_000), HarvestOp(900_000)])
    ensures v.feeBps == 1_000 && v.supply == 10_000_000 && v.assets == v.lastHarvest == 900_000
    ensures SharesOf(v, 0) == 0 && FeeOn(v, 1_000_000) == 10_000
    ensures var h := Harvest(v, 1_000_000);
            && h.Ok? && h.value.shares == v.shares[0 := 101_010]
            && Withdraw(h.value, 0, 101_010).Ok?
            && Withdraw(h.value, 0, 101_010).value.escrow == v.escrow - 18_198
  {
    var n := NewVault(0, 1_000).value;
    var d, h, w := Vault(0, 1_000, 10_000_000, 10_000_000, 0, 10_000_000, map[1 := 10_000_000]),
                   Vault(0, 1_000, 10_000_000, 11_111_111, 10_000_000, 10_000_000,
                         map[1 := 10_000_000, 0 := 1_111_111]),
                   Vault(0, 1_000, 8_990_826, 10_000_000, 10_000_000, 8_990_826, map[1 := 10_000_000, 0 := 0]);
    FirstDeposit(n);
    FirstHarvest(d);
    FirstWithdrawal(h);
    LossHarvest(w);
    RunOfFive(n, DepositOp(1, 10_000_000), HarvestOp(10_000_000), WithdrawOp(0, 1_111_111),
              MarkOp(900_000, 1_000_000), HarvestOp(900_000));
    hide Step, Run;
    GainHarvest(v);
  }

  lemma RunOfFive(v: Vault, a: Op, b: Op, c: Op, d: Op, e: Op)
    ensures Run(v, [a, b, c, d, e]) == Step(Step(Step(Step(Step(v, a), b), c), d), e)
  {
    hide Step;
    RunUnfolds(v, a, [b, c, d, e]);
    RunUnfolds(Step(v, a), b, [c, d, e]);
    RunUnfolds(Step(Step(v, a), b), c, [d, e]);
    RunUnfolds(Step(Step(Step(v, a), b), c), d, [e]);
  }

  lemma RunUnfolds(v: Vault, op: Op, rest: seq<Op>)
    ensures Run(v, [op] + rest) == Run(Step(v, op), rest)
  {
    hide Step;
    assert ([op] + rest)[1..] == rest;
  }

  lemma FirstDeposit(v: Vault)
    requires v == NewVault(0, 1_000).value
    ensures Step(v, DepositOp(1, 10_000_000))
         == Vault(0, 1_000, 10_000_000, 10_000_000, 0, 10_000_000, map[1 := 10_000_000])
  {
    assert SharesFor(0, 0, 10_000_000) == 10_000_000;
    hide SharesFor;
  }

  lemma FirstHarvest(v: Vault)
    requires v == Vault(0, 1_000, 10_000_000, 10_000_000, 0, 10_000_000, map[1 := 10_000_000])
    ensures Step(v, HarvestOp(10_000_000))
         == Vault(0, 1_000, 10_000_000, 11_111_111, 10_000_000, 10_000_000,
                  map[1 := 10_000_000, 0 := 1_111_111])
  {
    assert FeeOn(v, 10_000_000) == 1_000_000;
    assert FeeShares(10_000_000, 1_000_000, 10_000_000) == 1_111_111;
    hide FeeOn, FeeShares;
  }

  lemma FirstWithdrawal(v: Vault)
    requires v == Vault(0, 1_000, 10_000_000, 11_111_111, 10_000_000, 10_000_000,
                        map[1 := 10_000_000, 0 := 1_111_111])
    ensures Step(v, WithdrawOp(0, 1_111_111))
         == Vault(0, 1_000, 8_990_826, 10_000_000, 10_000_000, 8_990_826, map[1 := 10_000_000, 0 := 0])
  {
    assert AssetsFor(10_000_000, 11_111_111, 1_111_111) == 1_009_174;
    hide AssetsFor;
  }

  lemma LossHarvest(v: Vault)
    requires v == Vault(0, 1_000, 8_990_826, 10_000_000, 10_000_000, 8_990_826, map[1 := 10_000_000, 0 := 0])
    ensures Step(Step(v, MarkOp(900_000, 1_000_000)), HarvestOp(900_000))
         == Vault(0, 1_000, 900_000, 10_000_000, 900_000, 1_000_000, map[1 := 10_000_000, 0 := 0])
  {
  }

  lemma GainHarvest(v: Vault)
    requires v == Vault(0, 1_000, 900_000, 10_000_000, 900_000, 1_000_000, map[1 := 10_000_000, 0 := 0])
    ensures FeeOn(v, 1_000_000) == 10_000
    ensures var h := Harvest(v, 1_000_000);
            && h.Ok? && h.value.shares == v.shares[0 := 101_010]
            && Withdraw(h.value, 0, 101_010).Ok?
            && Withdraw(h.value, 0, 101_010).value.escrow == v.escrow - 18_198
  {
    FeeSharesCanRedeemForMore();
    assert FeeOn(v, 1_000_000) == 10_000;
    assert AssetsFor(1_000_000, 10_101_010, 101_010) == 18_198;
    hide FeeShares, FeeOn, AssetsFor;
  }

  // ---------- The fee falls on deposits ----------

  /** Deposits and withdrawals move neither the mark of the last harvest nor the fee rate. */
  lemma {:induction false} DealingKeepsMark(v: Vault, ops: seq<Op>)
    requires forall k :: 0 <= k < |ops| ==> Dealing(ops[k])
    ensures var w := Run(v, ops);
            w.lastHarvest == v.lastHarvest && w.feeBps == v.feeBps && (v.assets <= U64_MAX ==> w.assets <= U64_MAX)
    decreases |ops|
  {
    if ops != [] {
      hide SharesFor, AssetsFor;
      DealingKeepsMark(Step(v, ops[0]), ops[1..]);
    }
  }

  /**
   The fee falls on deposits. With nothing earned since the last harvest, after any deposits and withdrawals
   the assets put in on balance are charged as if they were gain, and they go free exactly when they are too
   few for a fee of one.
   */
  lemma DepositsAreCharged(v: Vault, ops: seq<Op>)
    requires v.lastHarvest == v.assets <= U64_MAX && v.feeBps <= MAX_FEE_BPS
    requires forall k :: 0 <= k < |ops| ==> Dealing(ops[k])
    ensures var w := Run(v, ops);
            var net := SatSub(w.assets, v.assets);
            && FeeOn(w, w.assets) == net * v.feeBps / 10_000
            && (FeeOn(w, w.assets) == 0 <==> net * v.feeBps < 10_000)
  {
    DealingKeepsMark(v, ops);
    hide AsU64, Run;
    ChargeFits(SatSub(Run(v, ops).assets, v.assets), v.feeBps);
  }

  lemma ChargeFits(net: nat, feeBps: nat)
    requires net <= U64_MAX && feeBps <= MAX_FEE_BPS
    ensures AsU64(net * feeBps / 10_000) == net * feeBps / 10_000
    ensures net * feeBps / 10_000 == 0 <==> net * feeBps < 10_000
  {
    var n := net * feeBps;
    MulMono(feeBps, MAX_FEE_BPS, net);
    DivAtMost(n, 10_000, net);
    CutDown(n / 10_000);
    hide AsU64;
  }
}
