/**
 After maturity the treasury skims every appreciation beyond the all-time high, while positions that
 were not credited in time still claim interest at the frozen final rate.
 */
module VaultMaturity {
  import opened Foundations
  import opened MapSums
  import opened Numbers
  import opened Vaults
  import opened VaultLedger
  import opened VaultSolvency

  // ---------- One skim ----------

  lemma AppreciationBounds(last: Number, current: Number, balance: nat)
    requires last <= current && current > 0
    ensures Appreciation(last, current, balance) * current <= balance * (current - last)
    ensures Appreciation(last, current, balance) <= balance
    ensures last < current ==> balance * (current - last) < Appreciation(last, current, balance) * current + current
  {
    if last < current {
      var d := current - last;
      MulNaturalExact(d, balance);
      FloorDivExact(d * balance, current);
      DivBounds(d * balance, current);
      MulMono(d, current, balance);
      DivAtMost(d * balance, current, balance) by { assert d * balance < (balance + 1) * current; }
    }
  }

  /**
   No update lets the active SY lose value against the lower of the old and the new rate, and none overdraws
   the escrow.
   */
  lemma UpdateKeepsValue(v: Vault, rate: Number, now: nat)
    ensures var v' := UpdateFromSyState(v, rate, now);
            && ActiveSy(v') * rate >= ActiveSy(v) * Min(v.lastSeen, rate)
            && (Free(v) >= 0 ==> Free(v') >= 0)
            && Free(v') == Free(v) - Skim(v, rate, now)
  {
    hide SyBackingForPt;
    var active, k := ActiveSy(v), Skim(v, rate, now);
    ActiveIsFree(v);
    if k > 0 {
      hide Appreciation;
      SkimRises(v, rate, now);
      AppreciationBounds(v.lastSeen, rate, active);
      SkimProduct(active, k, v.lastSeen, rate);
    } else {
      MulMono(Min(v.lastSeen, rate), rate, active);
    }
  }

  lemma SkimRises(v: Vault, rate: Number, now: nat)
    requires Skim(v, rate, now) > 0
    ensures v.lastSeen < rate && Skim(v, rate, now) == Appreciation(v.lastSeen, rate, ActiveSy(v))
  {
  }

  lemma SkimProduct(active: nat, k: nat, last: nat, rate: nat)
    requires last <= rate && k * rate <= active * (rate - last)
    ensures (active - k) * rate >= active * last
  {
    Distribute(rate, active - k, k);
    Distribute(active, rate - last, last);
  }

  /** PT is worth no more than the active SY at the last seen rate. */
  predicate FullyBacked(v: Vault) {
    v.ptSupply * ONE <= ActiveSy(v) * v.lastSeen
  }

  function Updates(v: Vault, rates: seq<(Number, nat)>): Vault
    decreases |rates|
  {
    if rates == [] then v else Updates(UpdateFromSyState(v, rates[0].0, rates[0].1), rates[1..])
  }

  /** While the rate does not fall, any run of updates leaves a fully backed PT supply fully backed. */
  lemma {:induction false} RisingRunKeepsBacking(v: Vault, rates: seq<(Number, nat)>)
    requires FullyBacked(v)
    requires forall i :: 0 <= i < |rates| ==> v.lastSeen <= rates[i].0
    requires forall i, j :: 0 <= i < j < |rates| ==> rates[i].0 <= rates[j].0
    ensures FullyBacked(Updates(v, rates))
    decreases |rates|
  {
    if rates != [] {
      UpdateKeepsValue(v, rates[0].0, rates[0].1);
      hide SyBackingForPt, Skim, ActiveSy;
      RisingRunKeepsBacking(UpdateFromSyState(v, rates[0].0, rates[0].1), rates[1..]);
    }
  }

  /** A PT supply backed at the all-time high before a skim is backed at the new rate after it. */
  predicate SkimSafe(last: Number, ath: Number, rate: Number, active: nat, pt: nat) {
    pt * ONE <= active * ath ==> pt * ONE <= (active - Appreciation(last, rate, active)) * rate
  }

  /**
   A skim measures appreciation from the last seen rate, not from the all-time high. It preserves
   backing at the all-time high, for every balance, exactly when the two were equal, that is when the
   vault was not in emergency mode.
   */
  lemma SkimKeepsAthBackingIff(last: Number, ath: Number, rate: Number)
    requires last <= ath < rate
    ensures last == ath <==> forall active: nat, pt: nat :: SkimSafe(last, ath, rate, active, pt)
  {
    if last == ath {
      forall active: nat, pt: nat ensures SkimSafe(last, ath, rate, active, pt) {
        AppreciationBounds(last, rate, active);
        SkimProduct(active, Appreciation(last, rate, active), last, rate);
      }
    } else {
      var active, pt := ONE * rate, rate * ath;
      assert pt * ONE <= active * ath by { assert rate * ath * ONE == ONE * rate * ath; }
      AppreciationBounds(last, rate, active);
      SkimTooMuch(active, pt, Appreciation(last, rate, active), last, ath, rate);
      assert !SkimSafe(last, ath, rate, active, pt);
    }
  }

  lemma SkimTooMuch(active: nat, pt: nat, k: nat, last: nat, ath: nat, rate: nat)
    requires last < ath < rate && active == ONE * rate && pt == rate * ath
    requires active * (rate - last) < k * rate + rate
    ensures pt * ONE > (active - k) * rate
  {
    Distribute(rate, active - k, k);
    Distribute(active, rate - last, last);
    MulMono(last + 1, ath, active);
    Distribute(active, last, 1);
    assert pt * ONE == active * ath;
  }

  // ---------- Claims after maturity ----------

  /** What a position last credited below the final rate can still claim, in 1e-12 SY at the final rate. */
  ghost function LateClaim(p: YieldPosition, final: Number): nat {
    if 0 < p.index < final then
      RecipAntitone(p.index, final);
      p.yt * (Recip(p.index) - Recip(final))
    else 0
  }

  ghost function LateOf(users: Users, final: Number): map<Pubkey, int> {
    map u | u in users :: LateClaim(users[u], final)
  }

  ghost function Late(s: State): int {
    LateClaim(s.robot, s.vault.final) + Sum(LateOf(s.users, s.vault.final))
  }

  /** The free escrow, valued at the last seen rate, pays all late interest and all PT, up to the dust. */
  ghost predicate Funded(w: World) {
    var v := w.s.vault;
    (ONE * Free(v) + w.dust) * v.lastSeen >= v.final * Late(w.s) + v.ptSupply * (ONE * ONE)
  }

  ghost predicate MatureInv(w: World) {
    && 0 < w.s.vault.final <= w.s.vault.lastSeen == w.s.vault.allTimeHigh
    && Staged(w.s) == w.s.vault.uncollected
    && w.s.vault.syForPt * w.s.vault.lastSeen <= w.s.vault.ptSupply * ONE
    && Funded(w)
  }

  lemma PutLate(users: Users, u: Pubkey, p: YieldPosition, final: Number)
    ensures Sum(LateOf(users[u := p], final))
         == Sum(LateOf(users, final)) + LateClaim(p, final) - (if u in users then LateClaim(users[u], final) else 0)
  {
    hide LateClaim;
    assert LateOf(users[u := p], final) == LateOf(users, final)[u := LateClaim(p, final)];
    SumPut(LateOf(users, final), u, LateClaim(p, final));
  }

  lemma LateNonNegative(s: State)
    ensures 0 <= Late(s)
  {
    SumNonNegative(LateOf(s.users, s.vault.final));
  }

  // ---------- Reaching maturity ----------

  /** A claim is the late claim at the final rate plus the YT priced at the final rate. */
  lemma ClaimSplits(p: YieldPosition, final: Number)
    requires final > 0 && (p.yt > 0 ==> p.index > 0)
    ensures p.index <= final ==> LateClaim(p, final) + p.yt * Recip(final) == Claim(p)
  {
    if 0 < p.index < final {
      RecipAntitone(p.index, final);
      Distribute(p.yt, Recip(p.index) - Recip(final), Recip(final));
    } else if p.index == 0 {
      assert p.yt * Recip(final) == 0;
    }
  }

  lemma UsersSplit(users: Users, f: Number)
    requires f > 0 && forall u :: u in users ==> Creditable(users[u], f)
    ensures Sum(LateOf(users, f)) + Recip(f) * Sum(YtOf(users)) == Sum(ClaimsOf(users))
  {
    hide Claim, LateClaim, Recip;
    var priced := map u | u in users :: Recip(f) * users[u].yt;
    forall u | u in users ensures LateClaim(users[u], f) + priced[u] == Claim(users[u]) {
      ClaimSplits(users[u], f);
    }
    SumScaled(YtOf(users), Recip(f), priced);
    SumPlus(LateOf(users, f), priced, ClaimsOf(users));
  }

  lemma ClaimsSplit(s: State)
    requires Rates(s) && s.vault.final > 0 && !Emergency(s.vault)
    ensures Late(s) + YtSupply(s) * Recip(s.vault.final) == Claims(s)
  {
    hide Claim, LateClaim, ClaimsOf, YtOf, LateOf, Recip;
    var f := s.vault.final;
    ClaimSplits(s.robot, f);
    UsersSplit(s.users, f);
    Distribute(Recip(f), s.robot.yt, Sum(YtOf(s.users)));
  }

  /**
   A vault that ends its life outside emergency mode can pay all late interest and all PT, up to the
   dust and 1e-12 SY per PT.
   */
  lemma MaturityFunded(w: World)
    requires LiveInv(w) && w.s.vault.final > 0 && !Emergency(w.s.vault)
    ensures MatureInv(w.(dust := w.dust + w.s.vault.ptSupply))
  {
    hide Claims, Late, YtSupply, Recip;
    var v := w.s.vault;
    ClaimsSplit(w.s);
    RecipBounds(v.final);
    FundedProduct(ONE * Free(v) + w.dust, Late(w.s), v.ptSupply, Recip(v.final), v.final);
  }

  lemma FundedProduct(funds: int, late: int, pt: nat, r: nat, f: nat)
    requires late + pt * r <= funds && ONE * ONE <= r * f + f
    ensures (funds + pt) * f >= f * late + pt * (ONE * ONE)
  {
    MulMono(late + pt * r, funds, f);
    Distribute(f, funds, pt);
    Distribute(f, late, pt * r);
    MulMono(ONE * ONE, r * f + f, pt);
    Distribute(pt, r * f, f);
    assert pt * (r * f) == f * (pt * r);
  }

  // ---------- Updating and crediting after maturity ----------

  lemma UpdateShape(v: Vault, rate: Number, now: nat)
    requires IsExpired(v, now) && rate >= v.allTimeHigh
    ensures var v' := UpdateFromSyState(v, rate, now);
            && v' == v.(treasury := v'.treasury, lastSeen := rate, allTimeHigh := rate, syForPt := v'.syForPt)
            && v'.syForPt * rate <= v'.ptSupply * ONE
  {
    hide SyBackingForPt, Skim;
    var v' := UpdateFromSyState(v, rate, now);
    SyBackingBound(rate, v'.ptSupply, ActiveSy(v'));
  }

  lemma UpdateFunds(v: Vault, rate: Number, now: nat, dust: nat, need: int)
    requires 0 < v.lastSeen <= rate && 0 <= need <= (ONE * Free(v) + dust) * v.lastSeen
    ensures need <= (ONE * Free(UpdateFromSyState(v, rate, now)) + dust) * rate
  {
    UpdateKeepsValue(v, rate, now);
    ActiveIsFree(v);
    ActiveIsFree(UpdateFromSyState(v, rate, now));
    if Free(v) < 0 {
      NoSkimWhenOverdrawn(v, rate, now);
    }
    hide UpdateFromSyState, Free, ActiveSy, Skim;
    RaisedFunds(Free(v), Free(UpdateFromSyState(v, rate, now)), dust, v.lastSeen, rate, need);
  }

  lemma UpdateFunded(w: World, rate: Number, now: nat)
    requires MatureInv(w) && IsExpired(w.s.vault, now) && rate >= w.s.vault.allTimeHigh
    ensures var v' := UpdateFromSyState(w.s.vault, rate, now);
            && MatureInv(w.(s := w.s.(vault := v')))
            && v' == w.s.vault.(treasury := v'.treasury, lastSeen := rate, allTimeHigh := rate, syForPt := v'.syForPt)
  {
    hide UpdateFromSyState, Late, Free;
    UpdateShape(w.s.vault, rate, now);
    SameLate(w.s, w.s.(vault := UpdateFromSyState(w.s.vault, rate, now)));
    LateNonNegative(w.s);
    UpdateFunds(w.s.vault, rate, now, w.dust,
                w.s.vault.final * Late(w.s) + w.s.vault.ptSupply * (ONE * ONE));
  }

  lemma NoSkimWhenOverdrawn(v: Vault, rate: Number, now: nat)
    requires Free(v) < 0
    ensures Skim(v, rate, now) == 0
  {
    ActiveIsFree(v);
    if v.lastSeen < rate {
      AppreciationBounds(v.lastSeen, rate, 0);
    }
  }

  lemma SameLate(s: State, s': State)
    requires s'.robot == s.robot && s'.users == s.users && s'.vault.final == s.vault.final
    ensures Late(s') == Late(s)
  {
  }

  lemma RaisedFunds(free: int, free': int, dust: nat, last: nat, rate: nat, need: int)
    requires 0 < last <= rate && 0 <= need <= (ONE * free + dust) * last
    requires free >= 0 ==> free' * rate >= free * last && free' >= 0
    requires free < 0 ==> free' == free
    ensures (ONE * free' + dust) * rate >= need
  {
    if free >= 0 {
      MulMono(last, rate, dust);
      Distribute(last, ONE * free, dust);
      Distribute(rate, ONE * free', dust);
      assert ONE * free * last == ONE * (free * last) && ONE * free' * rate == ONE * (free' * rate);
    } else {
      NonNegativeFactor(ONE * free + dust, last);
      MulMono(last, rate, ONE * free + dust);
    }
  }

  lemma NonNegativeFactor(a: int, b: int)
    requires b > 0 && a * b >= 0
    ensures a >= 0
  {
    if a < 0 {
      MulMono(a, -1, b);
    }
  }

  /** Late interest, valued at the current rate, is paid out of the late claim, up to the dust of scaling. */
  lemma LateEarn(v: Vault, p: YieldPosition)
    requires 0 < v.final <= v.lastSeen && !Emergency(v)
    ensures ONE * EarnedBy(v, p) * v.lastSeen <= v.final * LateClaim(p, v.final) + EarnDust(v, p) * v.lastSeen
  {
    hide EarnedSy, LateClaim;
    var e, f, c := EarnedSy(p.yt, p.index, v.final), v.final, v.lastSeen;
    LatePaid(p, f);
    if c > f {
      DivBounds(HALF * e, c);
      ScaleBounds(e, f, c);
      ScaledProduct(EarnedBy(v, p), e, Div(f, c), f, c, LateClaim(p, f), EarnDust(v, p));
    } else {
      assert ONE * e * c == f * (ONE * e);
      MulMono(ONE * e, LateClaim(p, f), f);
    }
  }

  lemma ScaleBounds(e: nat, f: Number, c: Number)
    requires 0 < f < c
    ensures ONE * ScaleToCurrent(e, f, c) <= Div(f, c) * e
    ensures c * Div(f, c) <= f * ONE + HALF
  {
    DivBounds(f * ONE + HALF, c);
    FloorMulNatural(Div(f, c), e);
    DivBounds(Div(f, c) * e, ONE);
  }

  lemma LatePaid(p: YieldPosition, final: Number)
    ensures ONE * EarnedSy(p.yt, p.index, final) <= LateClaim(p, final)
  {
    if 0 < p.index < final {
      EarnedBounds(p.yt, p.index, final);
      RecipAntitone(p.index, final);
      Distribute(p.yt, Recip(p.index) - Recip(final), Recip(final));
    }
  }

  lemma ScaledProduct(scaled: nat, e: nat, scale: nat, f: nat, c: nat, late: nat, dust: nat)
    requires ONE * scaled <= scale * e
    requires c * scale <= f * ONE + HALF
    requires ONE * e <= late && HALF * e <= dust * c
    ensures ONE * scaled * c <= f * late + dust * c
  {
    MulMono(ONE * scaled, scale * e, c);
    assert scale * e * c == c * scale * e;
    MulMono(c * scale, f * ONE + HALF, e);
    assert (f * ONE + HALF) * e == f * (ONE * e) + HALF * e;
    MulMono(ONE * e, late, f);
  }

  lemma FundsAfterEarn(free: int, earned: nat, dust: nat, d: nat, c: nat, f: nat, late: int, part: nat, need: int)
    requires (ONE * free + dust) * c >= f * late + need
    requires ONE * earned * c <= f * part + d * c
    ensures (ONE * (free - earned) + (dust + d)) * c >= f * (late - part) + need
  {
    Distribute(c, ONE * free + dust, d - ONE * earned);
    Distribute(c, d, -(ONE * earned));
    Distribute(f, late - part, part);
  }

  /** The update and the credit to the vault's own position, as one transition of the invariant. */
  lemma UpdateYieldMature(w: World, rate: Number, now: nat)
    requires MatureInv(w) && IsExpired(w.s.vault, now) && rate >= w.s.vault.allTimeHigh
    requires UpdateYield(w.s, rate, now).Ok?
    ensures var s1 := UpdateYield(w.s, rate, now).value;
            && MatureInv(World(s1, w.dust + UpdateDust(w.s, rate, now), w.stripped))
            && s1.users == w.s.users && s1.vault.lastSeen == rate == s1.vault.allTimeHigh
            && s1.vault.ptSupply == w.s.vault.ptSupply && s1.vault.final == w.s.vault.final
            && s1.vault.startTs == w.s.vault.startTs && s1.vault.duration == w.s.vault.duration
  {
    UpdateFunded(w, rate, now);
    hide UpdateFromSyState, EarnedBy, LateClaim, LateOf, StagedOf, EarnDust;
    var v := UpdateFromSyState(w.s.vault, rate, now);
    var p' := Earn(v, w.s.robot).value.1;
    LateEarn(v, w.s.robot);
    NothingLate(p', v.final);
    FundsAfterEarn(Free(v), EarnedBy(v, w.s.robot), w.dust, EarnDust(v, w.s.robot), v.lastSeen, v.final,
                   Late(w.s.(vault := v)), LateClaim(w.s.robot, v.final), v.ptSupply * (ONE * ONE));
  }

  lemma NothingLate(p: YieldPosition, final: Number)
    requires p.index == final
    ensures LateClaim(p, final) == 0
  {
  }

  lemma EarnUserMature(w: World, user: Pubkey)
    requires MatureInv(w) && EarnUser(w.s, user).Ok?
    ensures user in w.s.users
    ensures var s2 := EarnUser(w.s, user).value;
            && MatureInv(World(s2, w.dust + UserDust(w.s, user), w.stripped))
            && s2.robot == w.s.robot && user in s2.users
            && s2.vault == w.s.vault.(uncollected := s2.vault.uncollected)
  {
    hide EarnedBy, LateClaim, LateOf, StagedOf, ClaimsOf, YtOf, Claim, EarnDust;
    var v, p := w.s.vault, w.s.users[user];
    var p' := Earn(v, p).value.1;
    LateEarn(v, p);
    NothingLate(p', v.final);
    PutLate(w.s.users, user, p', v.final);
    PutUser(w.s.users, user, p');
    FundsAfterEarn(Free(v), EarnedBy(v, p), w.dust, EarnDust(v, p), v.lastSeen, v.final,
                   Late(w.s), LateClaim(p, v.final), v.ptSupply * (ONE * ONE));
  }

  // ---------- The handlers after maturity ----------

  /** After maturity no accepted handler sees a rate below the all-time high. */
  lemma AcceptedAboveAth(s: State, op: Op)
    requires op.MergeOp? || op.StageOp?
    requires IsExpired(s.vault, op.now) && Apply(s, op).Ok?
    ensures op.rate >= s.vault.allTimeHigh && UpdateYield(s, op.rate, op.now).Ok?
  {
    hide SyBackingForPt, Skim, EarnedBy, MergedSy;
  }

  lemma ResetMature(w: World, v: Vault, sy: nat, pt: nat)
    requires MatureInv(w) && sy <= w.s.vault.totalSy && pt <= w.s.vault.ptSupply
    requires v == SetSyForPt(w.s.vault.(totalSy := w.s.vault.totalSy - sy, ptSupply := w.s.vault.ptSupply - pt))
    requires ONE * sy * w.s.vault.lastSeen <= pt * (ONE * ONE)
    ensures MatureInv(w.(s := w.s.(vault := v)))
  {
    hide Late, SetSyForPt;
    ResetVault(v, w.s.vault.(totalSy := w.s.vault.totalSy - sy, ptSupply := w.s.vault.ptSupply - pt));
    SameLate(w.s, w.s.(vault := v));
    Distribute(w.s.vault.lastSeen, ONE * Free(w.s.vault) + w.dust, -(ONE * sy));
  }

  lemma MergeMature(w: World, rate: Number, now: nat, amount: nat)
    requires MatureInv(w) && IsExpired(w.s.vault, now) && Merge(w.s, rate, now, amount).Ok?
    ensures MatureInv(Step(w, MergeOp(rate, now, amount)))
  {
    hide UpdateYield, MergedSy, SetSyForPt, Staged, Funded, UpdateDust;
    AcceptedAboveAth(w.s, MergeOp(rate, now, amount));
    UpdateYieldMature(w, rate, now);
    var s1, s' := UpdateYield(w.s, rate, now).value, Merge(w.s, rate, now, amount).value;
    MergedBound(s1.vault, amount);
    ResetMature(World(s1, w.dust + UpdateDust(w.s, rate, now), w.stripped), s'.vault, MergedSy(s1.vault, amount),
                amount);
    assert s' == s1.(vault := s'.vault);
  }

  lemma StageMature(w: World, rate: Number, now: nat, user: Pubkey)
    requires MatureInv(w) && IsExpired(w.s.vault, now) && StageYield(w.s, rate, now, user).Ok?
    ensures MatureInv(Step(w, StageOp(rate, now, user)))
  {
    hide UpdateYield, EarnUser, SetSyForPt, Staged, Funded, UpdateDust, UserDust;
    AcceptedAboveAth(w.s, StageOp(rate, now, user));
    UpdateYieldMature(w, rate, now);
    var s1 := UpdateYield(w.s, rate, now).value;
    var w1 := World(s1, w.dust + UpdateDust(w.s, rate, now), w.stripped);
    EarnUserMature(w1, user);
    var s2, s' := EarnUser(s1, user).value, StageYield(w.s, rate, now, user).value;
    ResetMature(World(s2, w1.dust + UserDust(s1, user), w.stripped), s'.vault, 0, 0);
  }

  lemma CollectMature(w: World, user: Pubkey, amount: nat)
    requires MatureInv(w) && CollectInterest(w.s, user, amount).Ok?
    ensures MatureInv(Step(w, CollectOp(user, amount)))
  {
    hide EarnUser, UserDust, LateOf, StagedOf, ClaimsOf, YtOf, Claim;
    EarnUserMature(w, user);
    var s1, s' := EarnUser(w.s, user).value, CollectInterest(w.s, user, amount).value;
    PutUser(s1.users, user, s'.users[user]);
    PutLate(s1.users, user, s'.users[user], s1.vault.final);
  }

  lemma OtherMature(w: World, op: Op)
    requires MatureInv(w) && (op.CollectRobotOp? || op.CollectTreasuryOp? || op.InitializeOp?) && Apply(w.s, op).Ok?
    ensures MatureInv(Step(w, op))
  {
    hide LateOf, StagedOf, ClaimsOf, YtOf;
    if op.InitializeOp? {
      PutUser(w.s.users, op.user, YieldPosition(0, 0, 0));
      PutLate(w.s.users, op.user, YieldPosition(0, 0, 0), w.s.vault.final);
    }
  }

  /** After maturity every transaction keeps the escrow funding late interest and PT. */
  lemma StepMature(w: World, op: Op)
    requires MatureInv(w)
    requires ClockOf(op).Ok? ==> IsExpired(w.s.vault, ClockOf(op).value)
    ensures MatureInv(Step(w, op))
  {
    if Apply(w.s, op).Ok? {
      hide MatureInv, Merge, StageYield, CollectInterest, CollectRobot, CollectTreasury, InitializePosition, Step;
      match op
      case MergeOp(rate, now, amount) => MergeMature(w, rate, now, amount);
      case StageOp(rate, now, user) => StageMature(w, rate, now, user);
      case CollectOp(user, amount) => CollectMature(w, user, amount);
      case CollectRobotOp(_) => OtherMature(w, op);
      case CollectTreasuryOp(_) => OtherMature(w, op);
      case InitializeOp(_) => OtherMature(w, op);
      case _ =>
    }
  }

  // ---------- The dust after maturity ----------

  /** The dust a position's one late credit can still add. */
  function DustLeft(p: YieldPosition, final: Number): nat
    requires final > 0
  {
    var earned := EarnedSy(p.yt, p.index, final);
    if earned == 0 then 0 else HALF * earned / final + 1
  }

  ghost function DustLeftOf(users: Users, final: Number): map<Pubkey, int>
    requires final > 0
  {
    map u | u in users :: DustLeft(users[u], final)
  }

  ghost function TotalDustLeft(s: State): int
    requires s.vault.final > 0
  {
    DustLeft(s.robot, s.vault.final) + Sum(DustLeftOf(s.users, s.vault.final))
  }

  lemma PutDust(users: Users, u: Pubkey, p: YieldPosition, final: Number)
    requires final > 0
    ensures Sum(DustLeftOf(users[u := p], final))
         == Sum(DustLeftOf(users, final)) + DustLeft(p, final) - (if u in users then DustLeft(users[u], final) else 0)
  {
    hide DustLeft;
    SumPut(DustLeftOf(users, final), u, DustLeft(p, final));
    assert DustLeftOf(users[u := p], final) == DustLeftOf(users, final)[u := DustLeft(p, final)];
  }

  lemma DustLeftNonNegative(users: Users, final: Number)
    requires final > 0
    ensures Sum(DustLeftOf(users, final)) >= 0
  {
    hide DustLeft;
    SumNonNegative(DustLeftOf(users, final));
  }

  lemma CreditUsesDust(v: Vault, p: YieldPosition)
    requires 0 < v.final <= v.lastSeen
    ensures EarnDust(v, p) <= DustLeft(p, v.final)
  {
    hide EarnedSy;
    DustFalls(HALF * EarnedSy(p.yt, p.index, v.final), v.final, v.lastSeen);
  }

  lemma DustFalls(n: nat, f: nat, c: nat)
    requires 0 < f <= c
    ensures n / c <= n / f
  {
    DivBounds(n, c);
    DivAtLeast(n, c, 0);
    MulMono(f, c, n / c);
    DivAtLeast(n, f, n / c);
  }

  lemma CreditedUses(p: YieldPosition, final: Number)
    requires final > 0 && p.index == final
    ensures DustLeft(p, final) == 0
  {
  }

  lemma UpdateUsesDust(w: World, rate: Number, now: nat)
    requires MatureInv(w) && IsExpired(w.s.vault, now) && rate >= w.s.vault.allTimeHigh
             && UpdateYield(w.s, rate, now).Ok?
    ensures var s1 := UpdateYield(w.s, rate, now).value;
            s1.vault.final == w.s.vault.final && UpdateDust(w.s, rate, now) + TotalDustLeft(s1) <= TotalDustLeft(w.s)
  {
    UpdateShape(w.s.vault, rate, now);
    var v := UpdateFromSyState(w.s.vault, rate, now);
    CreditUsesDust(v, w.s.robot);
    CreditedUses(UpdateYield(w.s, rate, now).value.robot, v.final);
    hide UpdateFromSyState, EarnedBy, DustLeft, DustLeftOf, EarnDust, Funded, Staged;
  }

  lemma UserUsesDust(w: World, user: Pubkey)
    requires MatureInv(w) && EarnUser(w.s, user).Ok?
    ensures var s2 := EarnUser(w.s, user).value;
            s2.vault.final == w.s.vault.final && user in s2.users
                && UserDust(w.s, user) + TotalDustLeft(s2) <= TotalDustLeft(w.s)
  {
    hide EarnedBy, DustLeft, DustLeftOf, EarnDust, Funded, Staged;
    var p' := EarnUser(w.s, user).value.users[user];
    CreditUsesDust(w.s.vault, w.s.users[user]);
    CreditedUses(p', w.s.vault.final);
    PutDust(w.s.users, user, p', w.s.vault.final);
  }

  lemma SameDust(s: State, s': State)
    requires s.vault.final == s'.vault.final > 0 && s'.users == s.users
    requires s'.robot.yt == s.robot.yt && s'.robot.index == s.robot.index
    ensures TotalDustLeft(s') == TotalDustLeft(s)
  {
    hide DustLeftOf;
  }

  lemma StageUsesDust(w: World, rate: Number, now: nat, user: Pubkey)
    requires MatureInv(w) && IsExpired(w.s.vault, now) && StageYield(w.s, rate, now, user).Ok?
    ensures var s' := StageYield(w.s, rate, now, user).value;
            s'.vault.final == w.s.vault.final
                && StageDust(w.s, rate, now, user) + TotalDustLeft(s') <= TotalDustLeft(w.s)
  {
    hide UpdateYield, EarnUser, SetSyForPt, Staged, Funded, UpdateDust, UserDust, TotalDustLeft;
    AcceptedAboveAth(w.s, StageOp(rate, now, user));
    UpdateYieldMature(w, rate, now);
    UpdateUsesDust(w, rate, now);
    var s1 := UpdateYield(w.s, rate, now).value;
    var w1 := World(s1, w.dust + UpdateDust(w.s, rate, now), w.stripped);
    UserUsesDust(w1, user);
    var s2, s' := EarnUser(s1, user).value, StageYield(w.s, rate, now, user).value;
    FinalKept(s2.vault);
    SameDust(s2, s');
  }

  lemma FinalKept(v: Vault)
    ensures SetSyForPt(v) == v.(syForPt := SetSyForPt(v).syForPt)
  {
  }

  lemma MergeUsesDust(w: World, rate: Number, now: nat, amount: nat)
    requires MatureInv(w) && IsExpired(w.s.vault, now) && Merge(w.s, rate, now, amount).Ok?
    ensures var s' := Merge(w.s, rate, now, amount).value;
            s'.vault.final == w.s.vault.final && UpdateDust(w.s, rate, now) + TotalDustLeft(s') <= TotalDustLeft(w.s)
  {
    hide UpdateYield, MergedSy, SetSyForPt, Staged, Funded, UpdateDust, TotalDustLeft;
    AcceptedAboveAth(w.s, MergeOp(rate, now, amount));
    UpdateUsesDust(w, rate, now);
    UpdateYieldMature(w, rate, now);
    var s1, s' := UpdateYield(w.s, rate, now).value, Merge(w.s, rate, now, amount).value;
    FinalKept(s1.vault.(totalSy := s1.vault.totalSy - MergedSy(s1.vault, amount),
                        ptSupply := s1.vault.ptSupply - amount));
    SameDust(s1, s');
  }

  lemma CollectUsesDust(w: World, user: Pubkey, amount: nat)
    requires MatureInv(w) && CollectInterest(w.s, user, amount).Ok?
    ensures var s' := CollectInterest(w.s, user, amount).value;
            s'.vault.final == w.s.vault.final && UserDust(w.s, user) + TotalDustLeft(s') <= TotalDustLeft(w.s)
  {
    hide EarnUser, UserDust, DustLeft, DustLeftOf, MatureInv;
    UserUsesDust(w, user);
    FinalPositive(w);
    var s1, s' := EarnUser(w.s, user).value, CollectInterest(w.s, user, amount).value;
    PutDust(s1.users, user, s'.users[user], s1.vault.final);
    StagedIgnored(s1.users[user], s'.users[user], s1.vault.final);
  }

  lemma StagedIgnored(p: YieldPosition, p': YieldPosition, final: Number)
    requires final > 0 && p'.yt == p.yt && p'.index == p.index
    ensures DustLeft(p', final) == DustLeft(p, final)
  {
  }

  /** The dust a transaction adds after maturity comes out of what late credits can still add. */
  lemma StepUsesDust(w: World, op: Op)
    requires MatureInv(w)
    requires ClockOf(op).Ok? ==> IsExpired(w.s.vault, ClockOf(op).value)
    ensures Step(w, op).s.vault.final == w.s.vault.final
    ensures Step(w, op).dust + TotalDustLeft(Step(w, op).s) <= w.dust + TotalDustLeft(w.s)
  {
    if Apply(w.s, op).Ok? {
      hide MatureInv, Merge, StageYield, CollectInterest, StageDust, UserDust, UpdateDust, TotalDustLeft;
      match op
      case MergeOp(rate, now, amount) => MergeUsesDust(w, rate, now, amount);
      case StageOp(rate, now, user) => StageUsesDust(w, rate, now, user);
      case CollectOp(user, amount) => CollectUsesDust(w, user, amount);
      case CollectRobotOp(_) => FinalPositive(w); SameDust(w.s, Apply(w.s, op).value);
      case CollectTreasuryOp(_) => FinalPositive(w); SameDust(w.s, Apply(w.s, op).value);
      case InitializeOp(user) => OpenedDust(w, user);
      case _ =>
    }
  }

  lemma FinalPositive(w: World)
    requires MatureInv(w)
    ensures w.s.vault.final > 0
  {
  }

  lemma OpenedDust(w: World, user: Pubkey)
    requires MatureInv(w) && InitializePosition(w.s, user).Ok?
    ensures TotalDustLeft(InitializePosition(w.s, user).value) == TotalDustLeft(w.s)
  {
    hide DustLeftOf, Funded, Staged;
    PutDust(w.s.users, user, YieldPosition(0, 0, 0), w.s.vault.final);
  }
}
