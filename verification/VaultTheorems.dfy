/** What the vault guarantees over whole runs, and the runs on which it falls short. */
module VaultTheorems {
  import opened Foundations
  import opened MapSums
  import opened Numbers
  import opened Vaults
  import opened VaultLedger
  import opened VaultSolvency
  import opened VaultMaturity

  ghost function Run(w: World, ops: seq<Op>): World
    decreases |ops|
  {
    if ops == [] then w else Run(Step(w, ops[0]), ops[1..])
  }

  function Genesis(startTs: nat, duration: nat, maxPySupply: nat): World {
    World(NewVault(startTs, duration, maxPySupply), 0, 0)
  }

  /** All operations that read the clock do so while the vault is active. */
  ghost predicate WhileActive(v: Vault, ops: seq<Op>) {
    forall k :: 0 <= k < |ops| && ClockOf(ops[k]).Ok? ==> IsActive(v, ClockOf(ops[k]).value)
  }

  /** All operations that read the clock do so after the vault has matured. */
  ghost predicate AfterMaturity(v: Vault, ops: seq<Op>) {
    forall k :: 0 <= k < |ops| && ClockOf(ops[k]).Ok? ==> IsExpired(v, ClockOf(ops[k]).value)
  }

  lemma StepLifetime(w: World, op: Op)
    ensures Step(w, op).s.vault.startTs == w.s.vault.startTs
    ensures Step(w, op).s.vault.duration == w.s.vault.duration
  {
    hide EarnedBy, SyBackingForPt, Skim, MergedSy, SyToPy, OpDust;
  }

  lemma GenesisLive(startTs: nat, duration: nat, maxPySupply: nat)
    ensures LiveInv(Genesis(startTs, duration, maxPySupply))
  {
    var s := Genesis(startTs, duration, maxPySupply).s;
    assert YtOf(s.users) == map[] && StagedOf(s.users) == map[] && ClaimsOf(s.users) == map[];
  }

  lemma {:induction false} RunLive(w: World, ops: seq<Op>)
    requires LiveInv(w) && WhileActive(w.s.vault, ops)
    ensures LiveInv(Run(w, ops))
    decreases |ops|
  {
    if ops != [] {
      StepLive(w, ops[0]);
      StepLifetime(w, ops[0]);
      hide LiveInv, Step;
      RunLive(Step(w, ops[0]), ops[1..]);
    }
  }

  lemma {:induction false} RunMature(w: World, ops: seq<Op>)
    requires MatureInv(w) && AfterMaturity(w.s.vault, ops)
    ensures MatureInv(Run(w, ops))
    decreases |ops|
  {
    if ops != [] {
      StepMature(w, ops[0]);
      StepLifetime(w, ops[0]);
      hide MatureInv, Step;
      RunMature(Step(w, ops[0]), ops[1..]);
    }
  }

  /** Every position is credited late at most once, so a run after maturity adds no more dust than those credits can. */
  lemma {:induction false} LateDustBounded(w: World, ops: seq<Op>)
    requires MatureInv(w) && AfterMaturity(w.s.vault, ops)
    ensures Run(w, ops).dust <= w.dust + TotalDustLeft(w.s)
    decreases |ops|
  {
    FinalPositive(w);
    if ops == [] {
      DustLeftNonNegative(w.s.users, w.s.vault.final);
    } else {
      StepMature(w, ops[0]);
      StepLifetime(w, ops[0]);
      StepUsesDust(w, ops[0]);
      hide MatureInv, Step, TotalDustLeft;
      LateDustBounded(Step(w, ops[0]), ops[1..]);
    }
  }

  // ---------- Solvency ----------

  /**
   In every run before maturity, with the SY rate rising and falling, the escrow covers the treasury,
   the credited interest and the claims of all YT, up to 1e-12 SY for every two SY stripped. YT and PT
   stay in step, and credited interest is exactly what positions have staged.
   */
  lemma SolventBeforeMaturity(startTs: nat, duration: nat, maxPySupply: nat, ops: seq<Op>)
    requires WhileActive(NewVault(startTs, duration, maxPySupply).vault, ops)
    ensures var w := Run(Genesis(startTs, duration, maxPySupply), ops);
            var v := w.s.vault;
            && ONE * (v.treasury + v.uncollected) + Claims(w.s) <= ONE * v.totalSy + w.dust
            && 2 * w.dust <= w.stripped
            && YtSupply(w.s) == v.ptSupply
            && Staged(w.s) == v.uncollected
  {
    GenesisLive(startTs, duration, maxPySupply);
    RunLive(Genesis(startTs, duration, maxPySupply), ops);
    hide Claims, YtSupply, Staged, Run;
  }

  /** The dust a transaction adds before maturity is that of a strip. */
  lemma LiveDust(w: World, op: Op)
    requires LiveInv(w) && Apply(w.s, op).Ok?
    requires ClockOf(op).Ok? ==> IsActive(w.s.vault, ClockOf(op).value)
    ensures op.StripOp? ==> op.rate > 0
    ensures OpDust(w.s, op) == if op.StripOp? then StripDust(op.rate, op.amount) else 0
  {
    hide StripDust, UpdateDust, UserDust, StageDust, UpdateYield, EarnUser, LiveInv, SetSyForPt;
    match op
    case StripOp(rate, now, _) => UpdateYieldLive(w, rate, now);
    case MergeOp(rate, now, _) => UpdateYieldLive(w, rate, now);
    case StageOp(rate, now, user) => CreditedLive(w, rate, now, user);
    case DepositOp(rate, now, user, _) => CreditedLive(w, rate, now, user);
    case WithdrawOp(rate, now, user, _) => CreditedLive(w, rate, now, user);
    case CollectOp(user, _) => EarnUserLive(w, user);
    case _ =>
  }

  /** Every accepted strip is at a rate whose reciprocal is not rounded up. */
  ghost predicate SafeStrips(ops: seq<Op>) {
    forall k :: 0 <= k < |ops| && ops[k].StripOp? && ops[k].rate > 0 ==> RecipSafe(ops[k].rate)
  }

  lemma {:induction false} SafeRunHasNoDust(w: World, ops: seq<Op>)
    requires LiveInv(w) && w.dust == 0 && WhileActive(w.s.vault, ops) && SafeStrips(ops)
    ensures Run(w, ops).dust == 0
    decreases |ops|
  {
    if ops != [] {
      StepLive(w, ops[0]);
      StepLifetime(w, ops[0]);
      if Apply(w.s, ops[0]).Ok? {
        LiveDust(w, ops[0]);
        if ops[0].StripOp? {
          StripDustFreeIff(ops[0].rate);
        }
      }
      hide LiveInv, OpDust, StripDust, Apply;
      SafeRunHasNoDust(Step(w, ops[0]), ops[1..]);
    }
  }

  /** At such rates the vault never owes the treasury and YT more SY than it holds. */
  lemma ExactlySolventAtSafeRates(startTs: nat, duration: nat, maxPySupply: nat, ops: seq<Op>)
    requires WhileActive(NewVault(startTs, duration, maxPySupply).vault, ops) && SafeStrips(ops)
    ensures var v := Run(Genesis(startTs, duration, maxPySupply), ops).s.vault;
            v.treasury + v.uncollected <= v.totalSy
  {
    GenesisLive(startTs, duration, maxPySupply);
    SafeRunHasNoDust(Genesis(startTs, duration, maxPySupply), ops);
    SolventBeforeMaturity(startTs, duration, maxPySupply, ops);
    ClaimsNonNegative(Run(Genesis(startTs, duration, maxPySupply), ops).s);
  }

  lemma ClaimsNonNegative(s: State)
    ensures 0 <= Claims(s)
  {
    SumNonNegative(ClaimsOf(s.users));
  }

  /**
   A vault that reaches maturity outside emergency mode stays solvent for good: however the rate moves,
   the treasury, the credited interest and the PT at the last seen rate are covered, up to a dust that
   is bounded by what was stripped, the PT supply and the late credits outstanding at maturity.
   */
  lemma SolventForLife(startTs: nat, duration: nat, maxPySupply: nat, ops: seq<Op>, late: seq<Op>)
    requires var v0 := NewVault(startTs, duration, maxPySupply).vault;
             WhileActive(v0, ops) && AfterMaturity(v0, late)
    requires var v := Run(Genesis(startTs, duration, maxPySupply), ops).s.vault;
             v.final > 0 && !Emergency(v)
    ensures var w := Run(Genesis(startTs, duration, maxPySupply), ops);
            var x := Run(w.(dust := w.dust + w.s.vault.ptSupply), late);
            var v := x.s.vault;
            && 2 * w.dust <= w.stripped && x.dust <= w.dust + w.s.vault.ptSupply + TotalDustLeft(w.s)
            && ONE * (v.treasury + v.uncollected) <= ONE * v.totalSy + x.dust
            && v.ptSupply * (ONE * ONE) <= (ONE * (v.totalSy - v.treasury - v.uncollected) + x.dust) * v.lastSeen
  {
    var w := Run(Genesis(startTs, duration, maxPySupply), ops);
    GenesisLive(startTs, duration, maxPySupply);
    RunLive(Genesis(startTs, duration, maxPySupply), ops);
    RunLifetime(Genesis(startTs, duration, maxPySupply), ops);
    hide LiveInv, Run, TotalDustLeft, Claims;
    SolventBeforeMaturity(startTs, duration, maxPySupply, ops);
    SolventLate(w, late);
  }

  lemma SolventLate(w: World, late: seq<Op>)
    requires LiveInv(w) && w.s.vault.final > 0 && !Emergency(w.s.vault) && AfterMaturity(w.s.vault, late)
    ensures var x := Run(w.(dust := w.dust + w.s.vault.ptSupply), late);
            var v := x.s.vault;
            && x.dust <= w.dust + w.s.vault.ptSupply + TotalDustLeft(w.s)
            && ONE * (v.treasury + v.uncollected) <= ONE * v.totalSy + x.dust
            && v.ptSupply * (ONE * ONE) <= (ONE * (v.totalSy - v.treasury - v.uncollected) + x.dust) * v.lastSeen
  {
    hide LiveInv, MatureInv, Run, TotalDustLeft;
    var mature := w.(dust := w.dust + w.s.vault.ptSupply);
    MaturityFunded(w);
    RunMature(mature, late);
    LateDustBounded(mature, late);
    MatureSolvent(Run(mature, late));
  }

  lemma {:induction false} RunLifetime(w: World, ops: seq<Op>)
    ensures Run(w, ops).s.vault.startTs == w.s.vault.startTs
    ensures Run(w, ops).s.vault.duration == w.s.vault.duration
    decreases |ops|
  {
    if ops != [] {
      StepLifetime(w, ops[0]);
      hide Step;
      RunLifetime(Step(w, ops[0]), ops[1..]);
    }
  }

  lemma MatureSolvent(w: World)
    requires MatureInv(w)
    ensures ONE * Free(w.s.vault) + w.dust >= 0
    ensures w.s.vault.ptSupply * (ONE * ONE) <= (ONE * Free(w.s.vault) + w.dust) * w.s.vault.lastSeen
  {
    hide Late;
    LateNonNegative(w.s);
    NonNegativeFactor(ONE * Free(w.s.vault) + w.dust, w.s.vault.lastSeen);
  }

  // ---------- Maturing below the all-time high ----------

  /** A live vault whose time is over, left at these rates. */
  ghost predicate MaturedAt(w: World, last: Number, ath: Number, now: nat) {
    LiveInv(w) && IsExpired(w.s.vault, now) && w.s.vault.lastSeen == last && w.s.vault.allTimeHigh == ath
  }

  /** All PT at the last seen rate are covered by the free SY, up to the dust and 1e-12 SY per PT. */
  predicate PtCovered(v: Vault, dust: nat) {
    v.ptSupply * (ONE * ONE) <= (ONE * Free(v) + dust + v.ptSupply) * v.lastSeen
  }

  ghost predicate CoveredAfterUpdate(w: World, rate: Number, now: nat) {
    PtCovered(UpdateFromSyState(w.s.vault, rate, now), w.dust)
  }

  /**
   The first late update at a new high covers the PT of every live vault left at these rates exactly when the
   SY that one PT claims at the old high is worth one at the last seen rate too, up to 1e-12 of the new rate.
   That is so whenever the vault did not mature in emergency mode; otherwise some live vault is short.
   */
  lemma LateSkimCoversIff(last: Number, ath: Number, rate: Number)
    requires 0 < last <= ath < rate
    ensures ONE * ONE <= Recip(ath) * last + rate
            <==> forall w: World, now: nat :: MaturedAt(w, last, ath, now) ==> CoveredAfterUpdate(w, rate, now)
    ensures last == ath ==> ONE * ONE <= Recip(ath) * last + rate
  {
    RecipBounds(ath);
    hide Recip, MaturedAt, CoveredAfterUpdate;
    if ONE * ONE <= Recip(ath) * last + rate {
      forall w: World, now: nat | MaturedAt(w, last, ath, now) ensures CoveredAfterUpdate(w, rate, now) {
        LateSkimCovers(w, rate, now);
      }
    } else {
      var w := LeftAt(last, ath, rate + 1);
      LeftIsLive(last, ath, rate + 1);
      LeftIsShort(last, ath, rate);
      assert MaturedAt(w, last, ath, 1) && !CoveredAfterUpdate(w, rate, 1);
    }
  }

  lemma LateSkimCovers(w: World, rate: Number, now: nat)
    requires LiveInv(w) && 0 < w.s.vault.lastSeen <= w.s.vault.allTimeHigh < rate
    requires ONE * ONE <= Recip(w.s.vault.allTimeHigh) * w.s.vault.lastSeen + rate
    ensures CoveredAfterUpdate(w, rate, now)
  {
    var v, v' := w.s.vault, UpdateFromSyState(w.s.vault, rate, now);
    ClaimsCoverSupply(w.s, v.allTimeHigh);
    UpdateKeepsValue(v, rate, now);
    ActiveIsFree(v);
    ActiveIsFree(v');
    if Free(v) < 0 {
      NoSkimWhenOverdrawn(v, rate, now);
    }
    hide Recip, Claims, YtSupply, Staged, Skim, SyBackingForPt, Free;
    CoverProduct(v.ptSupply, Recip(v.allTimeHigh), Free(v), Free(v'), w.dust, v.lastSeen, rate);
  }

  lemma CoverProduct(pt: nat, r: nat, free: int, free': int, dust: nat, last: nat, rate: nat)
    requires 0 < last <= rate && pt * r <= ONE * free + dust && ONE * ONE <= r * last + rate
    requires free >= 0 ==> free' * rate >= free * last
    requires free < 0 ==> free' == free
    ensures pt * (ONE * ONE) <= (ONE * free' + dust + pt) * rate
  {
    var need := pt * r * last;
    MulMono(ONE * ONE, r * last + rate, pt);
    assert pt * (r * last + rate) == need + pt * rate by {
      assert pt * (r * last) == pt * r * last;
    }
    LateValue(pt * r, free, free', dust, last, rate);
    assert (ONE * free' + dust + pt) * rate == (ONE * free' + dust) * rate + pt * rate;
  }

  lemma LateValue(claims: nat, free: int, free': int, dust: nat, last: nat, rate: nat)
    requires 0 < last <= rate && claims <= ONE * free + dust
    requires free >= 0 ==> free' * rate >= free * last
    requires free < 0 ==> free' == free
    ensures claims * last <= (ONE * free' + dust) * rate
  {
    MulMono(claims, ONE * free + dust, last);
    if free >= 0 {
      NonNegativeFactor(free', rate);
    }
    RaisedFunds(free, free', dust, last, rate, claims * last);
  }

  /** A live vault left at these rates with the YT undeposited and all `k` tokens of each stripped at the high. */
  function LeftAt(last: Number, ath: Number, k: nat): World
    requires ath > 0
  {
    var sy, pt := k * Recip(ath), k * ONE;
    World(State(Vault(0, 0, last, ath, last, sy, SyBackingForPt(last, pt, sy), pt, 0, 0, pt),
                YieldPosition(pt, ath, 0), map[]),
          0, sy)
  }

  lemma LeftIsLive(last: Number, ath: Number, k: nat)
    requires 0 < last < ath
    ensures MaturedAt(LeftAt(last, ath, k), last, ath, 1)
  {
    hide Recip, SyBackingForPt;
    SyBackingBound(last, k * ONE, k * Recip(ath));
    assert k * ONE * Recip(ath) == ONE * (k * Recip(ath));
  }

  lemma LeftIsShort(last: Number, ath: Number, rate: Number)
    requires 0 < last < ath < rate && Recip(ath) * last + rate < ONE * ONE
    ensures !CoveredAfterUpdate(LeftAt(last, ath, rate + 1), rate, 1)
  {
    hide Recip, SyBackingForPt, Appreciation;
    var v, sy := LeftAt(last, ath, rate + 1).s.vault, (rate + 1) * Recip(ath);
    assert ActiveSy(v) == sy;
    AppreciationBounds(last, rate, sy);
    assert Free(UpdateFromSyState(v, rate, 1)) == sy - Appreciation(last, rate, sy);
    ShortProduct(rate + 1, Recip(ath), sy, Appreciation(last, rate, sy), last, rate);
  }

  lemma ShortProduct(k: nat, r: nat, sy: nat, skim: nat, last: nat, rate: nat)
    requires rate < k && sy == k * r && last < rate && r * last + rate < ONE * ONE
    requires sy * (rate - last) < skim * rate + rate
    ensures (ONE * (sy - skim) + k * ONE) * rate < k * ONE * (ONE * ONE)
  {
    Distribute(rate, sy - skim, skim);
    Distribute(sy, rate - last, last);
    MulMono(r * last + rate + 1, ONE * ONE, k);
    assert k * (r * last + rate + 1) == sy * last + k * rate + k by {
      assert k * (r * last) == k * r * last;
    }
    Regrouped(sy - skim, k, rate);
  }

  lemma Regrouped(x: int, k: int, rate: int)
    ensures (ONE * x + k * ONE) * rate == ONE * (x * rate + k * rate)
    ensures k * ONE * (ONE * ONE) == ONE * (k * (ONE * ONE))
  {
  }

  // ---------- The stored PT backing ----------

  lemma UsersCoverSupply(users: Users, rate: Number)
    requires rate > 0 && forall u :: u in users ==> Creditable(users[u], rate)
    ensures Recip(rate) * Sum(YtOf(users)) <= Sum(ClaimsOf(users))
  {
    hide Recip, Claim;
    var priced := map u | u in users :: Recip(rate) * users[u].yt;
    SumScaled(YtOf(users), Recip(rate), priced);
    forall u | u in users ensures priced[u] <= Claim(users[u]) {
      ClaimAtLeast(users[u], rate);
    }
    SumMono(priced, ClaimsOf(users));
  }

  /** All YT, priced at a rate the vault's own position has not passed, claims no more than it does. */
  lemma ClaimsCoverSupply(s: State, rate: Number)
    requires Rates(s) && s.robot.index <= rate && rate > 0
    ensures YtSupply(s) * Recip(rate) <= Claims(s)
  {
    hide Recip, Claim, ClaimsOf, YtOf;
    UsersCoverSupply(s.users, rate);
    ClaimAtLeast(s.robot, rate);
    Distribute(Recip(rate), s.robot.yt, Sum(YtOf(s.users)));
  }

  lemma ClaimAtLeast(p: YieldPosition, rate: Number)
    requires Creditable(p, rate) && rate > 0
    ensures Recip(rate) * p.yt <= Claim(p)
  {
    if p.index > 0 {
      RecipAntitone(p.index, rate);
      MulMono(Recip(rate), Recip(p.index), p.yt);
    }
  }

  /**
   `collect_interest` credits the position without recomputing the PT backing, so the stored backing,
   the treasury and the credited interest may exceed the escrow, but by no more than the dust and
   1e-12 SY per PT.
   */
  lemma StaleBackingBounded(w: World)
    requires LiveInv(w)
    ensures var v := w.s.vault;
            ONE * (v.syForPt + v.treasury + v.uncollected) <= ONE * v.totalSy + w.dust + v.ptSupply
  {
    hide Claims, YtSupply, Staged, Recip;
    var v := w.s.vault;
    ClaimsNonNegative(w.s);
    if !Emergency(v) && v.lastSeen > 0 {
      ClaimsCoverSupply(w.s, v.lastSeen);
      RecipBounds(v.lastSeen);
      BackingProduct(v.syForPt, v.ptSupply, Recip(v.lastSeen), v.lastSeen);
    }
  }

  /** In every state a new vault reaches before maturity, the stored backing is within the PT's worth and that bound. */
  lemma BackingOnRuns(startTs: nat, duration: nat, maxPySupply: nat, ops: seq<Op>)
    requires WhileActive(NewVault(startTs, duration, maxPySupply).vault, ops)
    ensures var w := Run(Genesis(startTs, duration, maxPySupply), ops);
            var v := w.s.vault;
            && v.syForPt * v.lastSeen <= v.ptSupply * ONE
            && ONE * (v.syForPt + v.treasury + v.uncollected) <= ONE * v.totalSy + w.dust + v.ptSupply
            && 2 * w.dust <= w.stripped
  {
    GenesisLive(startTs, duration, maxPySupply);
    RunLive(Genesis(startTs, duration, maxPySupply), ops);
    StaleBackingBounded(Run(Genesis(startTs, duration, maxPySupply), ops));
    hide Run, Rates, Balances, Claims;
  }

  lemma BackingProduct(sy: nat, pt: nat, r: nat, rate: nat)
    requires rate > 0 && sy * rate <= pt * ONE && ONE * ONE < r * rate + rate
    ensures ONE * sy <= pt * r + pt
  {
    MulMono(sy * rate, pt * ONE, ONE);
    MulMono(ONE * ONE, (r + 1) * rate, pt);
    assert pt * ((r + 1) * rate) == (pt * r + pt) * rate;
    assert (ONE * sy) * rate == ONE * (sy * rate);
    MulCancel(ONE * sy, pt * r + pt, rate);
  }

  /** Every other handler that touches the backing leaves it within the free SY. */
  lemma FreshBacking(s: State, op: Op)
    requires op.StripOp? || op.MergeOp? || op.StageOp? || op.DepositOp? || op.WithdrawOp?
    requires Apply(s, op).Ok?
    ensures var v := Apply(s, op).value.vault;
            v.treasury + v.uncollected <= v.totalSy <==> v.syForPt + v.treasury + v.uncollected <= v.totalSy
  {
    hide UpdateYield, EarnUser, SyBackingForPt, MergedSy, SyToPy;
    var v := Apply(s, op).value.vault;
    SyBackingBound(v.lastSeen, v.ptSupply, ActiveSy(v));
  }

  // ---------- The creator ----------

  predicate CreatorOnly(ops: seq<Op>) {
    forall k :: 0 <= k < |ops| ==> ops[k].CollectRobotOp? || ops[k].CollectTreasuryOp?
  }

  /**
   However the creator combines the two ways of collecting, what leaves the escrow is exactly what leaves
   the treasury and the vault's own staged interest: the SY free for PT and every user are untouched.
   */
  lemma {:induction false} CreatorTakesOnlyItsOwn(w: World, ops: seq<Op>)
    requires CreatorOnly(ops)
    ensures var s' := Run(w, ops).s;
            && w.s.vault.totalSy - s'.vault.totalSy
                == (w.s.vault.treasury - s'.vault.treasury) + (w.s.robot.staged - s'.robot.staged)
            && s'.vault.totalSy <= w.s.vault.totalSy <= s'.vault.totalSy + w.s.vault.treasury + w.s.robot.staged
            && Free(s'.vault) == Free(w.s.vault) && s'.users == w.s.users && s'.vault.ptSupply == w.s.vault.ptSupply
    decreases |ops|
  {
    if ops != [] {
      hide OpDust;
      CreatorTakesOnlyItsOwn(Step(w, ops[0]), ops[1..]);
    }
  }

  // ---------- Rates ----------

  /** The all-time high never falls, and an operation after maturity leaves the final rate alone. */
  lemma StepRates(w: World, op: Op)
    ensures Step(w, op).s.vault.allTimeHigh >= w.s.vault.allTimeHigh
    ensures ClockOf(op).Ok? && IsExpired(w.s.vault, ClockOf(op).value) ==> Step(w, op).s.vault.final == w.s.vault.final
  {
    hide EarnedBy, SyBackingForPt, Skim, MergedSy, SyToPy, OpDust;
  }

  /** Over any run the all-time high never falls, and over any run after maturity the final rate is frozen. */
  lemma {:induction false} RatesOverRuns(w: World, ops: seq<Op>)
    ensures Run(w, ops).s.vault.allTimeHigh >= w.s.vault.allTimeHigh
    ensures AfterMaturity(w.s.vault, ops) ==> Run(w, ops).s.vault.final == w.s.vault.final
    decreases |ops|
  {
    if ops != [] {
      StepRates(w, ops[0]);
      StepUntimed(w, ops[0]);
      StepLifetime(w, ops[0]);
      hide Step;
      RatesOverRuns(Step(w, ops[0]), ops[1..]);
    }
  }

  /** An operation that reads no clock reads no rate. */
  lemma StepUntimed(w: World, op: Op)
    ensures ClockOf(op).Err? ==> Step(w, op).s.vault.final == w.s.vault.final
  {
    hide EarnedBy, OpDust;
  }

  // ---------- Staging in steps ----------

  /** What a position earns when it is credited at each of the rates in turn. */
  ghost function SteppedEarnings(yt: nat, rates: seq<Number>): nat
    requires |rates| > 0
  {
    if |rates| == 1 then 0 else EarnedSy(yt, rates[0], rates[1]) + SteppedEarnings(yt, rates[1..])
  }

  lemma StageBounds(yt: nat, seen: Number, current: Number)
    requires 0 < seen <= current
    ensures ONE * EarnedSy(yt, seen, current)
            <= yt * Recip(seen) - yt * Recip(current) < ONE * EarnedSy(yt, seen, current) + ONE
  {
    if seen < current {
      EarnedBounds(yt, seen, current);
    }
  }

  ghost predicate Rising(rates: seq<Number>) {
    && |rates| > 0 && rates[0] > 0
    && forall i :: 0 <= i < |rates| - 1 ==> rates[i] <= rates[i + 1]
  }

  lemma {:induction false} SteppedBounds(yt: nat, rates: seq<Number>)
    requires Rising(rates)
    ensures rates[|rates| - 1] >= rates[0]
    ensures var gain := yt * Recip(rates[0]) - yt * Recip(rates[|rates| - 1]);
            ONE * SteppedEarnings(yt, rates) <= gain <= ONE * (SteppedEarnings(yt, rates) + |rates| - 1)
  {
    if |rates| > 1 {
      hide Recip, EarnedSy;
      StageBounds(yt, rates[0], rates[1]);
      var rest := rates[1..];
      forall i | 0 <= i < |rest| - 1 ensures rest[i] <= rest[i + 1] {
        assert rates[i + 1] <= rates[i + 2];
      }
      SteppedBounds(yt, rest);
    }
  }

  /**
   Staging interest over several rising rates never earns more than staging it once, and loses at most one SY
   per extra step.
   */
  lemma SplitStagingNeverGains(yt: nat, rates: seq<Number>)
    requires Rising(rates) && |rates| > 1
    ensures var once := EarnedSy(yt, rates[0], rates[|rates| - 1]);
            SteppedEarnings(yt, rates) <= once <= SteppedEarnings(yt, rates) + |rates| - 2
  {
    hide Recip, EarnedSy;
    var rest, n := rates[1..], |rates|;
    forall i | 0 <= i < |rest| - 1 ensures rest[i] <= rest[i + 1] {
      assert rates[i + 1] <= rates[i + 2];
    }
    SteppedBounds(yt, rest);
    StageBounds(yt, rates[0], rates[1]);
    StageBounds(yt, rates[0], rates[n - 1]);
  }
}
