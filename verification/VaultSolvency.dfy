/** Before maturity every transaction keeps the claims of all YT positions covered by the escrow. */
module VaultSolvency {
  import opened Foundations
  import opened Numbers
  import opened Vaults
  import opened VaultLedger

  /**
   `dust` bounds, in 1e-12 SY, how far rounding may have let the claims outgrow the escrow;
   `stripped` adds up the SY ever stripped.
   */
  datatype World = World(s: State, dust: nat, stripped: nat)

  /** Interest scaled to a rate above the final one may round up. */
  function EarnDust(v: Vault, p: YieldPosition): nat {
    var earned := EarnedSy(p.yt, p.index, v.final);
    if Emergency(v) || v.lastSeen <= v.final || earned == 0 then 0 else HALF * earned / v.lastSeen + 1
  }

  function UpdateDust(s: State, rate: Number, now: nat): nat {
    EarnDust(UpdateFromSyState(s.vault, rate, now), s.robot)
  }

  function UserDust(s: State, user: Pubkey): nat {
    if user in s.users then EarnDust(s.vault, s.users[user]) else 0
  }

  function StageDust(s: State, rate: Number, now: nat, user: Pubkey): nat {
    UpdateDust(s, rate, now)
    + match UpdateYield(s, rate, now)
      case Ok(s1) => UserDust(s1, user)
      case Err(_) => 0
  }

  function OpDust(s: State, op: Op): nat {
    match op
    case StripOp(rate, now, amount) => UpdateDust(s, rate, now) + if rate > 0 then StripDust(rate, amount) else 0
    case MergeOp(rate, now, _) => UpdateDust(s, rate, now)
    case StageOp(rate, now, user) => StageDust(s, rate, now, user)
    case DepositOp(rate, now, user, _) => StageDust(s, rate, now, user)
    case WithdrawOp(rate, now, user, _) => StageDust(s, rate, now, user)
    case CollectOp(user, _) => UserDust(s, user)
    case _ => 0
  }

  /** One transaction. A failed one leaves no trace. */
  function Step(w: World, op: Op): World {
    match Apply(w.s, op)
    case Err(_) => w
    case Ok(s') => World(s', w.dust + OpDust(w.s, op), w.stripped + if op.StripOp? then op.amount else 0)
  }

  // ---------- The invariant before maturity ----------

  ghost predicate UsersBehind(s: State) {
    forall u :: u in s.users ==> Creditable(s.users[u], s.robot.index)
  }

  /** What holds of the rates and positions between transactions. */
  ghost predicate Rates(s: State) {
    && s.vault.final == s.vault.lastSeen <= s.vault.allTimeHigh
    && Creditable(s.robot, s.vault.allTimeHigh)
    && (!Emergency(s.vault) ==> s.robot.index == s.vault.final)
    && UsersBehind(s)
  }

  ghost predicate Balances(s: State) {
    && YtSupply(s) == s.vault.ptSupply
    && Staged(s) == s.vault.uncollected
  }

  ghost predicate Solvent(w: World) {
    && Claims(w.s) <= ONE * Free(w.s.vault) + w.dust
    && 2 * w.dust <= w.stripped
  }

  /**
   The stored PT backing is never worth more than the PT. In emergency mode, where nobody is
   credited, it also stays within the free SY.
   */
  ghost predicate Backing(v: Vault) {
    && v.syForPt * v.lastSeen <= v.ptSupply * ONE
    && (v.lastSeen == 0 ==> v.syForPt == 0)
    && (Emergency(v) ==> v.syForPt <= Max(0, Free(v)))
  }

  ghost predicate LiveInv(w: World) {
    && Rates(w.s)
    && Balances(w.s)
    && Solvent(w)
    && Backing(w.s.vault)
  }

  /** The clock of an operation that reads one. */
  function ClockOf(op: Op): Result<nat, ()> {
    match op
    case StripOp(_, now, _) => Ok(now)
    case MergeOp(_, now, _) => Ok(now)
    case StageOp(_, now, _) => Ok(now)
    case DepositOp(_, now, _, _) => Ok(now)
    case WithdrawOp(_, now, _, _) => Ok(now)
    case _ => Err(())
  }

  // ---------- The common prologue ----------

  lemma UpdateVault(v: Vault, rate: Number, now: nat)
    requires IsActive(v, now)
    ensures var v' := UpdateFromSyState(v, rate, now);
            && v' == v.(lastSeen := rate, allTimeHigh := Max(rate, v.allTimeHigh), final := rate, syForPt := v'.syForPt)
            && v'.syForPt * rate <= v.ptSupply * ONE
            && v'.syForPt <= Max(0, Free(v))
  {
    hide SyBackingForPt;
    SyBackingBound(rate, v.ptSupply, ActiveSy(v));
    ActiveIsFree(v);
  }

  /** Before maturity nothing is scaled: the final rate is the current one. */
  lemma EarnUnscaled(v: Vault, p: YieldPosition)
    requires v.final == v.lastSeen
    ensures EarnDust(v, p) == 0
    ensures !Emergency(v) ==> EarnedBy(v, p) == EarnedSy(p.yt, p.index, v.final)
  {
  }

  lemma UpdateYieldRates(s: State, rate: Number, now: nat)
    requires Rates(s) && IsActive(s.vault, now) && UpdateYield(s, rate, now).Ok?
    ensures UpdateDust(s, rate, now) == 0 && rate > 0
    ensures var s1 := UpdateYield(s, rate, now).value;
            Rates(s1) && IsActive(s1.vault, now) && s1.users == s.users && s1.vault.lastSeen == rate
  {
    hide EarnedSy, SyBackingForPt;
    UpdateVault(s.vault, rate, now);
    EarnUnscaled(UpdateFromSyState(s.vault, rate, now), s.robot);
  }

  lemma UpdateYieldBooks(w: World, rate: Number, now: nat)
    requires LiveInv(w) && IsActive(w.s.vault, now) && UpdateYield(w.s, rate, now).Ok?
    ensures var s1 := UpdateYield(w.s, rate, now).value;
            Balances(s1) && Solvent(w.(s := s1)) && Backing(s1.vault)
  {
    hide EarnedSy, Claim, ClaimsOf, StagedOf, YtOf, UpdateFromSyState;
    var v := UpdateFromSyState(w.s.vault, rate, now);
    UpdateVault(w.s.vault, rate, now);
    if !Emergency(v) {
      EarnUnscaled(v, w.s.robot);
      EarnPaidByClaim(w.s.robot, rate);
      ClaimIgnoresStaged(w.s.robot, UpdateYield(w.s, rate, now).value.robot, rate);
    }
  }

  lemma ClaimIgnoresStaged(p: YieldPosition, p': YieldPosition, rate: Number)
    requires p'.yt == p.yt && p'.index == rate
    ensures Claim(p') == Claim(p.(index := rate))
  {
  }

  lemma UpdateYieldLive(w: World, rate: Number, now: nat)
    requires LiveInv(w) && IsActive(w.s.vault, now) && UpdateYield(w.s, rate, now).Ok?
    ensures UpdateDust(w.s, rate, now) == 0 && rate > 0
    ensures var s1 := UpdateYield(w.s, rate, now).value;
            && LiveInv(w.(s := s1)) && IsActive(s1.vault, now) && s1.users == w.s.users && s1.vault.lastSeen == rate
  {
    hide UpdateYield, Rates, Balances, Solvent, Backing, UpdateDust;
    UpdateYieldRates(w.s, rate, now);
    UpdateYieldBooks(w, rate, now);
  }

  lemma EarnUserLive(w: World, user: Pubkey)
    requires LiveInv(w) && EarnUser(w.s, user).Ok?
    ensures user in w.s.users && UserDust(w.s, user) == 0
    ensures var s2 := EarnUser(w.s, user).value;
            && LiveInv(w.(s := s2)) && s2.robot == w.s.robot && user in s2.users
            && s2.vault == w.s.vault.(uncollected := s2.vault.uncollected)
            && (!Emergency(s2.vault) ==> s2.users[user].index == s2.robot.index)
            && s2.users[user].staged >= w.s.users[user].staged
  {
    hide EarnedSy, Claim, ClaimsOf, StagedOf, YtOf, EarnedBy, EarnDust;
    var v, p := w.s.vault, w.s.users[user];
    EarnUnscaled(v, p);
    if !Emergency(v) {
      var p' := Earn(v, p).value.1;
      EarnPaidByClaim(p, v.final);
      ClaimIgnoresStaged(p, p', v.final);
      PutUser(w.s.users, user, p');
    } else {
      assert EarnUser(w.s, user).value.users == w.s.users;
    }
  }

  // ---------- The handlers ----------

  /** Recomputing the backing restores it, whatever the escrow and the supply have become. */
  lemma ResetBacking(v: Vault)
    ensures Backing(SetSyForPt(v))
    ensures SetSyForPt(v).syForPt <= Max(0, Free(v))
  {
    hide SyBackingForPt;
    SyBackingBound(v.lastSeen, v.ptSupply, ActiveSy(v));
    ActiveIsFree(v);
  }

  lemma StripLive(w: World, rate: Number, now: nat, amount: nat)
    requires LiveInv(w) && Strip(w.s, rate, now, amount).Ok?
    ensures LiveInv(Step(w, StripOp(rate, now, amount)))
  {
    hide UpdateYield, Claim, ClaimsOf, StagedOf, YtOf, SyToPy, StripDust, SetSyForPt, UpdateDust, Recip;
    UpdateYieldLive(w, rate, now);
    var s1, s' := UpdateYield(w.s, rate, now).value, Strip(w.s, rate, now, amount).value;
    StripDustBound(rate, amount);
    ResetVault(s'.vault, s1.vault.(totalSy := s1.vault.totalSy + amount,
                                   ptSupply := s1.vault.ptSupply + SyToPy(rate, amount)));
    ClaimAdds(s1.robot, SyToPy(rate, amount));
  }

  lemma ResetVault(v': Vault, v: Vault)
    requires v' == SetSyForPt(v)
    ensures v' == v.(syForPt := v'.syForPt) && Backing(v')
  {
    ResetBacking(v);
  }

  lemma ClaimAdds(p: YieldPosition, amount: nat)
    requires p.index > 0
    ensures Claim(p.(yt := p.yt + amount)) == Claim(p) + amount * Recip(p.index)
  {
    Distribute(Recip(p.index), p.yt, amount);
  }

  lemma MergeLive(w: World, rate: Number, now: nat, amount: nat)
    requires LiveInv(w) && IsActive(w.s.vault, now) && Merge(w.s, rate, now, amount).Ok?
    ensures LiveInv(Step(w, MergeOp(rate, now, amount)))
  {
    hide UpdateYield, Claim, ClaimsOf, StagedOf, YtOf, MergedSy, SetSyForPt, UpdateDust, Recip;
    UpdateYieldLive(w, rate, now);
    var s1, s' := UpdateYield(w.s, rate, now).value, Merge(w.s, rate, now, amount).value;
    MergedBound(s1.vault, amount);
    ResetVault(s'.vault, s1.vault.(totalSy := s1.vault.totalSy - MergedSy(s1.vault, amount),
                                   ptSupply := s1.vault.ptSupply - amount));
    ClaimAdds(s'.robot, amount);
    assert s'.robot.(yt := s'.robot.yt + amount) == s1.robot;
  }

  /** Crediting the vault's position and then a user's, as the three handlers on user positions do. */
  function Credited(s: State, rate: Number, now: nat, user: Pubkey): Result<State, Error> {
    var s1 :- UpdateYield(s, rate, now);
    EarnUser(s1, user)
  }

  lemma CreditedLive(w: World, rate: Number, now: nat, user: Pubkey)
    requires LiveInv(w) && IsActive(w.s.vault, now) && Credited(w.s, rate, now, user).Ok?
    ensures StageDust(w.s, rate, now, user) == 0
    ensures var s2 := Credited(w.s, rate, now, user).value;
            && LiveInv(w.(s := s2)) && user in s2.users
            && (!Emergency(s2.vault) ==> s2.users[user].index == s2.robot.index)
            && (Emergency(s2.vault) <==> Emergency(UpdateYield(w.s, rate, now).value.vault))
  {
    hide UpdateYield, EarnUser, UserDust, UpdateDust, Rates, Balances, Solvent, Backing;
    UpdateYieldLive(w, rate, now);
    EarnUserLive(w.(s := UpdateYield(w.s, rate, now).value), user);
  }

  lemma StageLive(w: World, rate: Number, now: nat, user: Pubkey)
    requires LiveInv(w) && IsActive(w.s.vault, now) && StageYield(w.s, rate, now, user).Ok?
    ensures LiveInv(Step(w, StageOp(rate, now, user)))
  {
    hide UpdateYield, EarnUser, StageDust, SetSyForPt;
    CreditedLive(w, rate, now, user);
    var s2, s' := Credited(w.s, rate, now, user).value, StageYield(w.s, rate, now, user).value;
    ResetVault(s'.vault, s2.vault);
  }

  /** Moving YT between the vault's position and a user's, in the direction that cannot raise the claims. */
  lemma MoveLive(w: World, user: Pubkey, robot: YieldPosition, p: YieldPosition, v: Vault)
    requires LiveInv(w) && user in w.s.users && v == SetSyForPt(w.s.vault)
    requires robot == w.s.robot.(yt := robot.yt) && p == w.s.users[user].(yt := p.yt)
    requires robot.yt + p.yt == w.s.robot.yt + w.s.users[user].yt
    requires robot.yt >= w.s.robot.yt || (p.index == robot.index && (p.yt > 0 ==> robot.index > 0))
    ensures LiveInv(w.(s := State(v, robot, w.s.users[user := p])))
  {
    hide Claim, ClaimsOf, StagedOf, YtOf, SetSyForPt;
    ResetVault(v, w.s.vault);
    PutUser(w.s.users, user, p);
    assert Creditable(w.s.users[user], w.s.robot.index);
    if robot.yt >= w.s.robot.yt {
      MoveUp(w.s.users[user], w.s.robot, robot.yt - w.s.robot.yt);
    } else {
      MoveUp(w.s.robot, w.s.users[user], p.yt - w.s.users[user].yt);
    }
  }

  lemma DepositLive(w: World, rate: Number, now: nat, user: Pubkey, amount: nat)
    requires LiveInv(w) && DepositYt(w.s, rate, now, user, amount).Ok?
    ensures LiveInv(Step(w, DepositOp(rate, now, user, amount)))
  {
    hide UpdateYield, EarnUser, StageDust, SetSyForPt, Balances, Solvent, Backing;
    CreditedLive(w, rate, now, user);
    var s2, s' := Credited(w.s, rate, now, user).value, DepositYt(w.s, rate, now, user, amount).value;
    MoveLive(w.(s := s2), user, s'.robot, s'.users[user], s'.vault);
  }

  /** A withdrawal is safe even in emergency mode: the vault's position is never behind the user's. */
  lemma WithdrawLive(w: World, rate: Number, now: nat, user: Pubkey, amount: nat)
    requires LiveInv(w) && WithdrawYt(w.s, rate, now, user, amount).Ok?
    ensures LiveInv(Step(w, WithdrawOp(rate, now, user, amount)))
  {
    hide UpdateYield, EarnUser, StageDust, SetSyForPt, Balances, Solvent, Backing;
    CreditedLive(w, rate, now, user);
    var s2, s' := Credited(w.s, rate, now, user).value, WithdrawYt(w.s, rate, now, user, amount).value;
    MoveLive(w.(s := s2), user, s'.robot, s'.users[user], s'.vault);
  }

  lemma CollectLive(w: World, user: Pubkey, amount: nat)
    requires LiveInv(w) && CollectInterest(w.s, user, amount).Ok?
    ensures LiveInv(Step(w, CollectOp(user, amount)))
  {
    hide EarnUser, UserDust, Claim, ClaimsOf, StagedOf, YtOf;
    EarnUserLive(w, user);
    var s1, s' := EarnUser(w.s, user).value, CollectInterest(w.s, user, amount).value;
    PutUser(s1.users, user, s'.users[user]);
    ClaimIgnoresStaged(s1.users[user], s'.users[user], s1.users[user].index);
    assert s1.users[user].(index := s1.users[user].index) == s1.users[user];
  }

  lemma CuratorLive(w: World, op: Op)
    requires LiveInv(w) && (op.CollectRobotOp? || op.CollectTreasuryOp?) && Apply(w.s, op).Ok?
    ensures LiveInv(Step(w, op))
  {
    hide ClaimsOf, StagedOf, YtOf;
  }

  lemma InitializeLive(w: World, user: Pubkey)
    requires LiveInv(w) && InitializePosition(w.s, user).Ok?
    ensures LiveInv(Step(w, InitializeOp(user)))
  {
    hide ClaimsOf, StagedOf, YtOf;
    PutUser(w.s.users, user, YieldPosition(0, 0, 0));
  }

  /** Before maturity every transaction keeps the invariant. */
  lemma StepLive(w: World, op: Op)
    requires LiveInv(w)
    requires ClockOf(op).Ok? ==> IsActive(w.s.vault, ClockOf(op).value)
    ensures LiveInv(Step(w, op))
  {
    if Apply(w.s, op).Ok? {
      hide LiveInv, Step, Strip, Merge, StageYield, DepositYt, WithdrawYt;
      hide CollectInterest, CollectRobot, CollectTreasury, InitializePosition;
      match op
      case StripOp(rate, now, amount) => StripLive(w, rate, now, amount);
      case MergeOp(rate, now, amount) => MergeLive(w, rate, now, amount);
      case StageOp(rate, now, user) => StageLive(w, rate, now, user);
      case DepositOp(rate, now, user, amount) => DepositLive(w, rate, now, user, amount);
      case WithdrawOp(rate, now, user, amount) => WithdrawLive(w, rate, now, user, amount);
      case CollectOp(user, amount) => CollectLive(w, user, amount);
      case CollectRobotOp(_) => CuratorLive(w, op);
      case CollectTreasuryOp(_) => CuratorLive(w, op);
      case InitializeOp(user) => InitializeLive(w, user);
    }
  }
}
