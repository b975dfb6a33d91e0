/** Exactly when the vault never owes the treasury and YT more SY than it holds. */
module VaultExactness {
  import opened Foundations
  import opened Numbers
  import opened Vaults
  import opened VaultLedger
  import opened VaultSolvency
  import opened VaultTheorems
  import opened VaultExamples

  /** Every strip of the run is at one of these rates; a strip at zero is refused. */
  ghost predicate StripsAt(ops: seq<Op>, rates: iset<Number>) {
    forall k :: 0 <= k < |ops| && ops[k].StripOp? && ops[k].rate > 0 ==> ops[k].rate in rates
  }

  /** After this run of an active vault, what is owed to the treasury and to credited interest is in the escrow. */
  ghost predicate OwesWithin(startTs: nat, duration: nat, maxPySupply: nat, ops: seq<Op>) {
    var v := Run(Genesis(startTs, duration, maxPySupply), ops).s.vault;
    WhileActive(NewVault(startTs, duration, maxPySupply).vault, ops) ==> v.treasury + v.uncollected <= v.totalSy
  }

  /**
   The vaults that strip at these rates only are solvent on every run before maturity, whatever the
   rate does in between, exactly when no reciprocal of these rates was rounded up.
   */
  lemma SolventIff(rates: iset<Number>)
    ensures (forall rate :: rate in rates && rate > 0 ==> RecipSafe(rate))
       <==> forall startTs: nat, duration: nat, maxPySupply: nat, ops: seq<Op> ::
              StripsAt(ops, rates) ==> OwesWithin(startTs, duration, maxPySupply, ops)
  {
    if forall rate :: rate in rates && rate > 0 ==> RecipSafe(rate) {
      forall startTs: nat, duration: nat, maxPySupply: nat, ops: seq<Op> | StripsAt(ops, rates)
        ensures OwesWithin(startTs, duration, maxPySupply, ops)
      {
        if WhileActive(NewVault(startTs, duration, maxPySupply).vault, ops) {
          ExactlySolventAtSafeRates(startTs, duration, maxPySupply, ops);
        }
      }
    } else {
      var rate :| rate in rates && rate > 0 && !RecipSafe(rate);
      UnsafeRateOverdraws(rate, ONE, UnsafeOps(rate, ONE));
      assert StripsAt(UnsafeOps(rate, ONE), rates);
      assert !OwesWithin(0, DAY, rate * ONE, UnsafeOps(rate, ONE));
    }
  }

  // ---------- Up to a total stripped ----------

  /** By how much rounding a reciprocal up exceeds the exact one, at most half of 1e12. */
  function Excess(rate: Number): nat
    requires rate > 0
  {
    SatSub(rate * Recip(rate), ONE * ONE)
  }

  /** `k` times the excess of the rate is below 1e12. */
  predicate SmallExcess(rate: Number, k: nat) {
    rate > 0 ==> k * Excess(rate) < ONE
  }

  /** The same of the runs that strip at most 1e12 times `k` SY. */
  ghost predicate OwesWithinUpTo(k: nat, startTs: nat, duration: nat, maxPySupply: nat, ops: seq<Op>) {
    Run(Genesis(startTs, duration, maxPySupply), ops).stripped <= ONE * k ==>
      OwesWithin(startTs, duration, maxPySupply, ops)
  }

  /**
   The runs that strip at most 1e12 times `k` SY in all, at these rates only, are solvent exactly when
   `k` times the excess of each rate is below 1e12.
   */
  lemma SolventUpToIff(rates: iset<Number>, k: nat)
    requires k > 0
    ensures (forall rate :: rate in rates ==> SmallExcess(rate, k))
       <==> forall startTs: nat, duration: nat, maxPySupply: nat, ops: seq<Op> ::
              StripsAt(ops, rates) ==> OwesWithinUpTo(k, startTs, duration, maxPySupply, ops)
  {
    if forall rate :: rate in rates ==> SmallExcess(rate, k) {
      hide SmallExcess, OwesWithin;
      forall startTs: nat, duration: nat, maxPySupply: nat, ops: seq<Op> | StripsAt(ops, rates)
        ensures OwesWithinUpTo(k, startTs, duration, maxPySupply, ops)
      {
        SmallExcessSolvent(startTs, duration, maxPySupply, ops, rates, k);
      }
    } else {
      var rate :| rate in rates && !SmallExcess(rate, k);
      UnsafeUpTo(rate, k);
      hide SmallExcess, OwesWithinUpTo;
      assert StripsAt(UnsafeOps(rate, k), rates);
      assert !OwesWithinUpTo(k, 0, DAY, rate * k, UnsafeOps(rate, k));
    }
  }

  lemma UnsafeUpTo(rate: Number, k: nat)
    requires !SmallExcess(rate, k)
    ensures !OwesWithinUpTo(k, 0, DAY, rate * k, UnsafeOps(rate, k))
  {
    UnsafeRateOverdraws(rate, k, UnsafeOps(rate, k));
    hide UnsafeOps, Run, Genesis;
  }

  /** What a strip at a rate of small excess leaves. */
  lemma SmallExcessDust(rate: Number, amount: nat, k: nat)
    requires rate > 0 && SmallExcess(rate, k)
    ensures k * ONE * StripDust(rate, amount) <= (ONE - 1) * amount
  {
    SyToPyBound(rate, amount);
    hide SyToPy, Recip;
    var py, r, e, d := SyToPy(rate, amount), Recip(rate), Excess(rate), StripDust(rate, amount);
    ExcessProduct(py, r, rate, amount, e);
    assert ONE * d <= amount * e;
    MulMono(ONE * d, amount * e, k);
    MulMono(k * e, ONE - 1, amount);
    assert k * ONE * d == ONE * d * k;
    assert amount * e * k == k * e * amount;
  }

  lemma ExcessProduct(py: nat, r: nat, rate: nat, amount: nat, e: nat)
    requires ONE * py <= amount * rate && rate * r <= ONE * ONE + e
    ensures ONE * (py * r - ONE * amount) <= amount * e
  {
    MulMono(ONE * py, amount * rate, r);
    assert ONE * py * r == ONE * (py * r);
    assert amount * rate * r == amount * (rate * r);
    MulMono(rate * r, ONE * ONE + e, amount);
    Distribute(amount, ONE * ONE, e);
    assert amount * (ONE * ONE) == ONE * (ONE * amount);
  }

  /** The dust of a run, which strips at rates of small excess, is a small part of what was stripped. */
  predicate FewDust(w: World, k: nat) {
    k * ONE * w.dust <= (ONE - 1) * w.stripped
  }

  lemma SmallExcessStep(w: World, op: Op, k: nat)
    requires LiveInv(w) && FewDust(w, k) && (op.StripOp? ==> SmallExcess(op.rate, k))
    requires ClockOf(op).Ok? ==> IsActive(w.s.vault, ClockOf(op).value)
    ensures FewDust(Step(w, op), k)
  {
    if Apply(w.s, op).Ok? {
      LiveDust(w, op);
      hide LiveInv, OpDust, StripDust, Apply, SmallExcess;
      if op.StripOp? {
        SmallExcessDust(op.rate, op.amount, k);
        Distribute(k * ONE, w.dust, StripDust(op.rate, op.amount));
        Distribute(ONE - 1, w.stripped, op.amount);
      }
    }
  }

  lemma {:induction false} SmallExcessRun(w: World, ops: seq<Op>, rates: iset<Number>, k: nat)
    requires LiveInv(w) && WhileActive(w.s.vault, ops) && StripsAt(ops, rates)
    requires forall rate :: rate in rates ==> SmallExcess(rate, k)
    requires FewDust(w, k)
    ensures FewDust(Run(w, ops), k)
    decreases |ops|
  {
    if ops != [] {
      StepLive(w, ops[0]);
      StepLifetime(w, ops[0]);
      SmallExcessStep(w, ops[0], k);
      hide LiveInv, Step, FewDust;
      SmallExcessRun(Step(w, ops[0]), ops[1..], rates, k);
    }
  }

  lemma SmallExcessSolvent(startTs: nat, duration: nat, maxPySupply: nat, ops: seq<Op>, rates: iset<Number>, k: nat)
    requires StripsAt(ops, rates) && k > 0
    requires forall rate :: rate in rates ==> SmallExcess(rate, k)
    ensures OwesWithinUpTo(k, startTs, duration, maxPySupply, ops)
  {
    var w := Run(Genesis(startTs, duration, maxPySupply), ops);
    GenesisLive(startTs, duration, maxPySupply);
    if WhileActive(NewVault(startTs, duration, maxPySupply).vault, ops) && w.stripped <= ONE * k {
      SmallExcessRun(Genesis(startTs, duration, maxPySupply), ops, rates, k);
      SolventBeforeMaturity(startTs, duration, maxPySupply, ops);
      ClaimsNonNegative(w.s);
      hide Run, LiveInv, Claims, SmallExcess;
      DustBelowOne(w.dust, w.stripped, k);
    }
  }

  lemma DustBelowOne(dust: nat, stripped: nat, k: nat)
    requires k > 0 && k * ONE * dust <= (ONE - 1) * stripped && stripped <= ONE * k
    ensures dust < ONE
  {
    MulMono(stripped, ONE * k, ONE - 1);
    assert k * ONE * dust == dust * (ONE * k);
    MulCancel(dust, ONE - 1, ONE * k);
  }

  // ---------- A run that overdraws the escrow, at any other rate ----------

  /** A rate so high that its reciprocal is zero. */
  function Far(rate: Number): Number {
    rate + 3 * ONE * ONE
  }

  function UnsafeOps(rate: Number, k: nat): seq<Op> {
    [StripOp(rate, 0, ONE * k), InitializeOp(1), StageOp(Far(rate), 1, 1)]
  }

  /** 1e12 times `k` SY stripped: `k` times the scaled rate in PT and YT. */
  function Stripped(rate: Number, k: nat): State {
    State(Vault(0, DAY, rate, rate, rate, ONE * k, SyBackingForPt(rate, rate * k, ONE * k), rate * k, 0, 0, rate * k),
          YieldPosition(rate * k, rate, 0), map[])
  }

  function Opened(rate: Number, k: nat): State {
    Stripped(rate, k).(users := map[1 := YieldPosition(0, 0, 0)])
  }

  lemma StripMany(rate: Number, k: nat)
    ensures SyToPy(rate, ONE * k) == rate * k
  {
    assert FromNatural(ONE * k) * rate == ONE * (ONE * (rate * k));
    assert Mul(FromNatural(ONE * k), rate) == ONE * (rate * k);
    FloorIsQuotient(ONE * (rate * k));
  }

  lemma StripReached(rate: Number, k: nat, s: State)
    requires rate > 0 && s == NewVault(0, DAY, rate * k)
    ensures Apply(s, StripOp(rate, 0, ONE * k)) == Ok(Stripped(rate, k))
  {
    StripMany(rate, k);
    hide SyToPy, SyBackingForPt, Strip;
    FirstStrip(s, rate, ONE * k);
  }

  /** At a rate so far above that YT keeps no claim, all of the claim becomes interest. */
  lemma AllEarned(rate: Number, k: nat)
    requires rate > 0 && k * Excess(rate) >= ONE
    ensures EarnedSy(rate * k, rate, Far(rate)) > ONE * k
  {
    var far := Far(rate);
    DivIs(ONE * ONE + HALF, far, 0);
    assert Recip(far) == 0 && rate * k > 0;
    FloorMulNatural(Recip(rate), rate * k);
    hide Recip, Floor, Mul;
    ClaimQuotient(Recip(rate), rate, k, Excess(rate));
  }

  lemma ClaimQuotient(r: nat, rate: nat, k: nat, e: nat)
    requires rate * r == ONE * ONE + e && k * e >= ONE
    ensures r * (rate * k) / ONE > ONE * k
  {
    assert r * (rate * k) == k * (rate * r);
    Distribute(k, ONE * ONE, e);
    assert k * (ONE * ONE) == (ONE * k) * ONE;
    DivAtLeast(r * (rate * k), ONE, ONE * k + 1);
  }

  /** What the vault's own position has then earned is all that is owed, and the escrow is what was stripped. */
  lemma StageReached(rate: Number, k: nat, s: State)
    requires rate > 0 && s == Opened(rate, k)
    ensures var r := Apply(s, StageOp(Far(rate), 1, 1));
            && r.Ok?
            && r.value.vault.totalSy == ONE * k && r.value.vault.treasury == 0
            && r.value.vault.uncollected == EarnedSy(rate * k, rate, Far(rate))
  {
    RaisedYield(s, Far(rate), 1);
    hide UpdateYield, SyBackingForPt, EarnedSy, EarnedBy;
    var s1 := UpdateYield(s, Far(rate), 1).value;
    NothingHeld(s1.vault, s1.users[1]);
  }

  lemma UnsafeRateOverdraws(rate: Number, k: nat, ops: seq<Op>)
    requires rate > 0 && k * Excess(rate) >= ONE && ops == UnsafeOps(rate, k)
    ensures WhileActive(NewVault(0, DAY, rate * k).vault, ops)
    ensures var w := Run(Genesis(0, DAY, rate * k), ops);
            w.stripped == ONE * k && w.s.vault.treasury + w.s.vault.uncollected > w.s.vault.totalSy
  {
    var w := Genesis(0, DAY, rate * k);
    AllEarned(rate, k);
    StripReached(rate, k, w.s);
    StageReached(rate, k, Opened(rate, k));
    assert Apply(Stripped(rate, k), ops[1]) == Ok(Opened(rate, k));
    StrippedInAll(w, ops, Stripped(rate, k), Opened(rate, k));
    hide Apply, Run, States, Stripped, Opened, EarnedSy, Recip, Genesis;
    var last := Apply(Opened(rate, k), ops[2]).value;
    ChainEnds([w.s, Stripped(rate, k), Opened(rate, k), last], ops);
    RunStates(w, ops);
  }

  lemma StrippedInAll(w: World, ops: seq<Op>, s1: State, s2: State)
    requires |ops| == 3 && ops[0].StripOp? && !ops[1].StripOp? && !ops[2].StripOp?
    requires Apply(w.s, ops[0]) == Ok(s1) && Apply(s1, ops[1]) == Ok(s2)
    ensures Run(w, ops).stripped == w.stripped + ops[0].amount
  {
    hide Apply, OpDust;
    var w1 := Step(w, ops[0]);
    var w2 := Step(w1, ops[1]);
    assert ops[1..][0] == ops[1] && ops[1..][1..] == ops[2..] && ops[2..][1..] == [];
    assert Run(w1, ops[1..]) == Run(w2, ops[2..]);
    assert Run(w2, ops[2..]) == Step(w2, ops[2]);
  }
}
