/** The claims on a vault's escrow, and how one credit or one transfer of YT changes them. */
module VaultLedger {
  import opened Foundations
  import opened MapSums
  import opened Numbers
  import opened Vaults

  type Users = map<Pubkey, YieldPosition>

  /** A YT position's claim, in 1e-12 SY: its YT priced at the rate it was last credited at. */
  ghost function Claim(p: YieldPosition): nat {
    if p.index == 0 then 0 else p.yt * Recip(p.index)
  }

  ghost function ClaimsOf(users: Users): map<Pubkey, int> {
    map u | u in users :: Claim(users[u])
  }

  ghost function YtOf(users: Users): map<Pubkey, int> {
    map u | u in users :: users[u].yt
  }

  ghost function StagedOf(users: Users): map<Pubkey, int> {
    map u | u in users :: users[u].staged
  }

  ghost function Claims(s: State): int {
    Claim(s.robot) + Sum(ClaimsOf(s.users))
  }

  ghost function YtSupply(s: State): int {
    s.robot.yt + Sum(YtOf(s.users))
  }

  ghost function Staged(s: State): int {
    s.robot.staged + Sum(StagedOf(s.users))
  }

  /** Escrowed SY not owed to the treasury or to credited interest; negative if the vault owes more than it holds. */
  function Free(v: Vault): int {
    v.totalSy - v.treasury - v.uncollected
  }

  lemma ActiveIsFree(v: Vault)
    ensures ActiveSy(v) == Max(0, Free(v))
  {
  }

  lemma PutUser(users: Users, u: Pubkey, p: YieldPosition)
    ensures Sum(ClaimsOf(users[u := p]))
            == Sum(ClaimsOf(users)) + Claim(p) - (if u in users then Claim(users[u]) else 0)
    ensures Sum(YtOf(users[u := p])) == Sum(YtOf(users)) + p.yt - (if u in users then users[u].yt else 0)
    ensures Sum(StagedOf(users[u := p]))
            == Sum(StagedOf(users)) + p.staged - (if u in users then users[u].staged else 0)
  {
    hide Claim;
    assert ClaimsOf(users[u := p]) == ClaimsOf(users)[u := Claim(p)];
    assert YtOf(users[u := p]) == YtOf(users)[u := p.yt];
    assert StagedOf(users[u := p]) == StagedOf(users)[u := p.staged];
    SumPut(ClaimsOf(users), u, Claim(p));
    SumPut(YtOf(users), u, p.yt);
    SumPut(StagedOf(users), u, p.staged);
  }

  // ---------- Reciprocals ----------

  /** The reciprocal is within half a unit of the scale above and one rate below the exact one. */
  lemma RecipBounds(rate: Number)
    requires rate > 0
    ensures Recip(rate) * rate <= ONE * ONE + HALF < Recip(rate) * rate + rate
  {
    DivBounds(ONE * ONE + HALF, rate);
  }

  // ---------- Crediting a position ----------

  /** A position that can be credited at rate `rate`: it was last credited at a lower one, if it holds YT. */
  ghost predicate Creditable(p: YieldPosition, rate: Number) {
    && p.index <= rate
    && (p.yt > 0 ==> p.index > 0)
  }

  lemma EarnedBounds(yt: nat, seen: Number, current: Number)
    requires 0 < seen < current
    ensures ONE * EarnedSy(yt, seen, current) + yt * Recip(current) <= yt * Recip(seen)
                                           < ONE * EarnedSy(yt, seen, current) + yt * Recip(current) + ONE
  {
    RecipAntitone(seen, current);
    var d := Recip(seen) - Recip(current);
    FloorMulNatural(d, yt);
    Distribute(yt, Recip(current), d);
    DivBounds(d * yt, ONE);
    if yt == 0 {
      assert yt * Recip(seen) == 0 == yt * Recip(current);
    }
  }

  /** Interest credited at a rate is paid out of the claim. */
  lemma EarnPaidByClaim(p: YieldPosition, rate: Number)
    requires rate > 0 && Creditable(p, rate)
    ensures Claim(p.(index := rate)) + ONE * EarnedSy(p.yt, p.index, rate) <= Claim(p)
  {
    if 0 < p.index < rate {
      EarnedBounds(p.yt, p.index, rate);
    } else if p.index == 0 {
      assert p.yt * Recip(rate) == 0;
    }
  }

  /** YT moved to a position credited at a higher rate claims no more than before. */
  lemma MoveUp(low: YieldPosition, high: YieldPosition, amount: nat)
    requires low.yt >= amount && Creditable(low, high.index) && (high.yt > 0 ==> high.index > 0)
    ensures Claim(low.(yt := low.yt - amount)) + Claim(high.(yt := high.yt + amount)) <= Claim(low) + Claim(high)
    ensures low.index == high.index ==>
              Claim(low.(yt := low.yt - amount)) + Claim(high.(yt := high.yt + amount)) == Claim(low) + Claim(high)
  {
    if low.index > 0 {
      var l, h := Recip(low.index), Recip(high.index);
      RecipAntitone(low.index, high.index);
      Distribute(l, low.yt - amount, amount);
      Distribute(h, high.yt, amount);
      MulMono(h, l, amount);
    }
  }

  // ---------- Stripping and merging ----------

  /** What a strip adds to the claims beyond the SY it brings: zero unless the reciprocal was rounded up. */
  function StripDust(rate: Number, amountSy: nat): nat
    requires rate > 0
  {
    SatSub(SyToPy(rate, amountSy) * Recip(rate), ONE * amountSy)
  }

  lemma SyToPyBound(rate: Number, amountSy: nat)
    ensures ONE * SyToPy(rate, amountSy) <= amountSy * rate
  {
    assert Mul(FromNatural(amountSy), rate) == Mul(rate, FromNatural(amountSy)) by {
      assert (amountSy * ONE) * rate == rate * (amountSy * ONE);
    }
    FloorMulNatural(rate, amountSy);
    DivBounds(rate * amountSy, ONE);
  }

  lemma StripDustBound(rate: Number, amountSy: nat)
    requires rate > 0
    ensures SyToPy(rate, amountSy) * Recip(rate) <= ONE * amountSy + StripDust(rate, amountSy)
    ensures 2 * StripDust(rate, amountSy) <= amountSy
  {
    hide SyToPy, Recip;
    SyToPyBound(rate, amountSy);
    RecipBounds(rate);
    var py, r := SyToPy(rate, amountSy), Recip(rate);
    StripProduct(py, r, rate, amountSy);
  }

  lemma StripProduct(py: nat, r: nat, rate: nat, amountSy: nat)
    requires ONE * py <= amountSy * rate
    requires r * rate <= ONE * ONE + HALF
    ensures 2 * (py * r - ONE * amountSy) <= amountSy
  {
    MulMono(ONE * py, amountSy * rate, r);
    assert amountSy * rate * r == amountSy * (r * rate);
    MulMono(r * rate, ONE * ONE + HALF, amountSy);
    assert ONE * py * r == ONE * (py * r);
    assert amountSy * (ONE * ONE + HALF) == ONE * (ONE * amountSy) + HALF * amountSy;
  }

  /** The reciprocal of a rate was not rounded up. */
  predicate RecipSafe(rate: Number)
    requires rate > 0
  {
    rate * Recip(rate) <= ONE * ONE
  }

  /** Strips at a rate add no dust, whatever the amount, exactly when its reciprocal was not rounded up. */
  lemma StripDustFreeIff(rate: Number)
    requires rate > 0
    ensures RecipSafe(rate) <==> forall amountSy: nat :: StripDust(rate, amountSy) == 0
  {
    hide Recip;
    if RecipSafe(rate) {
      forall amountSy: nat ensures StripDust(rate, amountSy) == 0 {
        SyToPyBound(rate, amountSy);
        StripExact(SyToPy(rate, amountSy), Recip(rate), rate, amountSy);
      }
    } else {
      StripOne(rate);
      assert StripDust(rate, ONE) > 0;
    }
  }

  lemma StripExact(py: nat, r: nat, rate: nat, amountSy: nat)
    requires ONE * py <= amountSy * rate
    requires rate * r <= ONE * ONE
    ensures py * r <= ONE * amountSy
  {
    MulMono(ONE * py, amountSy * rate, r);
    assert amountSy * rate * r == amountSy * (rate * r);
    MulMono(rate * r, ONE * ONE, amountSy);
    assert ONE * py * r == ONE * (py * r);
  }

  /** Stripping 1e12 SY mints exactly the scaled rate in PT and YT. */
  lemma StripOne(rate: Number)
    ensures SyToPy(rate, ONE) == rate
  {
    assert Mul(FromNatural(ONE), rate) == rate * ONE;
    FloorIsQuotient(rate * ONE);
  }

  lemma SyBackingBound(rate: Number, ptSupply: nat, active: nat)
    ensures SyBackingForPt(rate, ptSupply, active) * rate <= ptSupply * ONE
    ensures SyBackingForPt(rate, ptSupply, active) <= active
    ensures rate == 0 ==> SyBackingForPt(rate, ptSupply, active) == 0
  {
    if rate > 0 {
      FloorDivExact(FromNatural(ptSupply), rate);
      DivBounds(ptSupply * ONE, rate);
      MulMono(SyBackingForPt(rate, ptSupply, active), ptSupply * ONE / rate, rate);
    }
  }

  lemma RedemptionRateBound(v: Vault)
    requires v.syForPt * v.lastSeen <= v.ptSupply * ONE
    ensures FromRatio(v.syForPt, v.ptSupply) * v.lastSeen <= ONE * ONE
  {
    if v.ptSupply > 0 {
      FromRatioIsFloor(v.syForPt, v.ptSupply);
      var q := FromRatio(v.syForPt, v.ptSupply);
      DivBounds(v.syForPt * ONE, v.ptSupply);
      RedemptionProduct(q, v.syForPt, v.lastSeen, v.ptSupply);
    }
  }

  lemma RedemptionProduct(q: nat, sy: nat, rate: nat, pt: nat)
    requires pt > 0
    requires pt * q <= sy * ONE
    requires sy * rate <= pt * ONE
    ensures q * rate <= ONE * ONE
  {
    MulMono(pt * q, sy * ONE, rate);
    assert sy * ONE * rate == ONE * (sy * rate);
    assert (q * rate) * pt == pt * q * rate;
    MulCancel(q * rate, ONE * ONE, pt);
  }

  /** Redeemed SY is worth at most the PT at the current rate. */
  lemma MergedBound(v: Vault, amountPy: nat)
    requires v.syForPt * v.lastSeen <= v.ptSupply * ONE
    ensures ONE * MergedSy(v, amountPy) * v.lastSeen <= amountPy * (ONE * ONE)
    ensures v.lastSeen > 0 ==> ONE * MergedSy(v, amountPy) <= amountPy * Recip(v.lastSeen)
  {
    RedemptionRateBound(v);
    var q := FromRatio(v.syForPt, v.ptSupply);
    MergedIs(v, amountPy);
    MergedProduct(MergedSy(v, amountPy), amountPy, q, v.lastSeen);
    if v.lastSeen > 0 {
      DivAtLeast(ONE * ONE + HALF, v.lastSeen, q);
      MulMono(q, Recip(v.lastSeen), amountPy);
    }
  }

  lemma MergedIs(v: Vault, amountPy: nat)
    ensures ONE * MergedSy(v, amountPy) <= amountPy * FromRatio(v.syForPt, v.ptSupply)
  {
    var q := FromRatio(v.syForPt, v.ptSupply);
    assert Mul(FromNatural(amountPy), q) == Mul(q, FromNatural(amountPy)) by {
      assert (amountPy * ONE) * q == q * (amountPy * ONE);
    }
    FloorMulNatural(q, amountPy);
    DivBounds(q * amountPy, ONE);
  }

  lemma MergedProduct(sy: nat, amount: nat, q: nat, rate: nat)
    requires ONE * sy <= amount * q
    requires q * rate <= ONE * ONE
    ensures ONE * sy * rate <= amount * (ONE * ONE)
  {
    MulMono(ONE * sy, amount * q, rate);
    assert amount * q * rate == amount * (q * rate);
    MulMono(q * rate, ONE * ONE, amount);
  }
}
