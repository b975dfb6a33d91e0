/**
 The yield-stripping vault as transitions on values.

 A vault holds SY in escrow, backs PT with part of it, and owes the rest to YT positions, which
 are credited lazily from the SY exchange rate. A transition that returns an error stands for a
 transaction the runtime rolls back. Aborts from u64 conversions are not modelled: the model
 accepts every transaction the program accepts.
 */
module Vaults {
  import opened Foundations
  import opened Numbers

  type Pubkey = nat

  datatype Vault = Vault(
    startTs: nat,
    duration: nat,
    lastSeen: Number,
    allTimeHigh: Number,
    final: Number,
    totalSy: nat,
    syForPt: nat,
    ptSupply: nat,
    treasury: nat,
    uncollected: nat,
    maxPySupply: nat)

  datatype YieldPosition = YieldPosition(yt: nat, index: Number, staged: nat)

  /** `robot` is the vault's own position, which holds all YT that nobody has deposited. */
  datatype State = State(vault: Vault, robot: YieldPosition, users: map<Pubkey, YieldPosition>)

  datatype Error =
    | VaultIsNotActive
    | VaultInEmergencyMode
    | InvalidExchangeRate
    | AmountTooLarge
    | AccountMissing
    | Abort

  // ---------- The vault ----------

  predicate IsExpired(v: Vault, now: nat) {
    now > v.startTs + v.duration
  }

  predicate IsActive(v: Vault, now: nat) {
    now >= v.startTs && !IsExpired(v, now)
  }

  predicate Emergency(v: Vault) {
    v.allTimeHigh > v.lastSeen
  }

  /** Escrowed SY that is neither the treasury's nor earned by YT; zero when the claims exceed the escrow. */
  function ActiveSy(v: Vault): nat {
    SatSub(SatSub(v.totalSy, v.treasury), v.uncollected)
  }

  function SyBackingForPt(rate: Number, ptSupply: nat, active: nat): nat {
    if rate == 0 then 0 else Min(Floor(Div(FromNatural(ptSupply), rate)), active)
  }

  function SetSyForPt(v: Vault): Vault {
    v.(syForPt := SyBackingForPt(v.lastSeen, v.ptSupply, ActiveSy(v)))
  }

  /** The SY by which a balance exceeds its old value in base once the rate has risen. */
  function Appreciation(last: Number, current: Number, balance: nat): nat {
    if current <= last then 0 else Floor(Div(Mul(current - last, FromNatural(balance)), current))
  }

  /** After maturity, and only at a new all-time high, the appreciation goes to the treasury. */
  function Skim(v: Vault, rate: Number, now: nat): nat {
    if IsExpired(v, now) && rate > v.allTimeHigh then Appreciation(v.lastSeen, rate, ActiveSy(v)) else 0
  }

  function UpdateFromSyState(v: Vault, rate: Number, now: nat): Vault {
    SetSyForPt(v.(treasury := v.treasury + Skim(v, rate, now),
                  lastSeen := rate,
                  allTimeHigh := Max(rate, v.allTimeHigh),
                  final := if IsActive(v, now) then rate else v.final))
  }

  // ---------- Yield positions ----------

  function Recip(rate: Number): Number
    requires rate > 0
  {
    Div(ONE, rate)
  }

  lemma RecipAntitone(a: Number, b: Number)
    requires 0 < a <= b
    ensures Recip(b) <= Recip(a)
  {
    var n := ONE * ONE + HALF;
    DivBounds(n, b);
    DivAtLeast(n, b, 0);
    MulMono(a, b, n / b);
    DivAtLeast(n, a, n / b);
  }

  function EarnedSy(yt: nat, seen: Number, current: Number): nat {
    if seen >= current || yt == 0 || seen == 0 then 0
    else
      RecipAntitone(seen, current);
      Floor(Mul(Recip(seen) - Recip(current), FromNatural(yt)))
  }

  /** Interest was earned at the final rate; at a higher current rate the same value is fewer SY. */
  function ScaleToCurrent(amount: nat, final: Number, current: Number): nat {
    if current <= final then amount else Floor(Mul(Div(final, current), FromNatural(amount)))
  }

  function EarnedBy(v: Vault, p: YieldPosition): nat {
    if Emergency(v) then 0 else ScaleToCurrent(EarnedSy(p.yt, p.index, v.final), v.final, v.lastSeen)
  }

  /** Crediting also prices the position's YT at the final rate, which aborts while that rate is zero. */
  function Earn(v: Vault, p: YieldPosition): Result<(Vault, YieldPosition), Error> {
    if v.final == 0 then Err(Abort)
    else if Emergency(v) then Ok((v, p))
    else Ok((v.(uncollected := v.uncollected + EarnedBy(v, p)),
             p.(staged := p.staged + EarnedBy(v, p), index := v.final)))
  }

  // ---------- Handlers ----------

  /** The prologue of every handler that reads the SY rate: update the vault, then credit its own position. */
  function UpdateYield(s: State, rate: Number, now: nat): Result<State, Error> {
    var (v, robot) :- Earn(UpdateFromSyState(s.vault, rate, now), s.robot);
    Ok(s.(vault := v, robot := robot))
  }

  function EarnUser(s: State, user: Pubkey): Result<State, Error> {
    if user !in s.users then Err(AccountMissing)
    else
      var (v, p) :- Earn(s.vault, s.users[user]);
      Ok(s.(vault := v, users := s.users[user := p]))
  }

  function SyToPy(rate: Number, amountSy: nat): nat {
    Floor(Mul(FromNatural(amountSy), rate))
  }

  function Strip(s: State, rate: Number, now: nat, amountSy: nat): Result<State, Error> {
    if !IsActive(s.vault, now) then Err(VaultIsNotActive)
    else if rate == 0 then Err(InvalidExchangeRate)
    else
      var s1 :- UpdateYield(s, rate, now);
      if Emergency(s1.vault) then Err(VaultInEmergencyMode)
      else
        var py := SyToPy(s1.vault.lastSeen, amountSy);
        if s1.vault.ptSupply + py > s1.vault.maxPySupply then Err(Abort)
        else Ok(s1.(vault := SetSyForPt(s1.vault.(totalSy := s1.vault.totalSy + amountSy,
                                                  ptSupply := s1.vault.ptSupply + py)),
                    robot := s1.robot.(yt := s1.robot.yt + py)))
  }

  /** The SY that PT redeems: its share of the backing, rounded down twice. */
  function MergedSy(v: Vault, amountPy: nat): nat {
    Floor(Mul(FromNatural(amountPy), FromRatio(v.syForPt, v.ptSupply)))
  }

  function Merge(s: State, rate: Number, now: nat, amountPy: nat): Result<State, Error> {
    if rate == 0 then Err(InvalidExchangeRate)
    else
      var s1 :- UpdateYield(s, rate, now);
      var v := s1.vault;
      if Emergency(v) then Err(VaultInEmergencyMode)
      else if IsActive(v, now) && s1.robot.yt < amountPy then Err(Abort)
      else if v.totalSy < MergedSy(v, amountPy) || v.ptSupply < amountPy then Err(Abort)
      else Ok(s1.(vault := SetSyForPt(v.(totalSy := v.totalSy - MergedSy(v, amountPy),
                                         ptSupply := v.ptSupply - amountPy)),
                  robot := if IsActive(v, now) then s1.robot.(yt := s1.robot.yt - amountPy) else s1.robot))
  }

  function StageYield(s: State, rate: Number, now: nat, user: Pubkey): Result<State, Error> {
    var s1 :- UpdateYield(s, rate, now);
    if Emergency(s1.vault) then Err(VaultInEmergencyMode)
    else
      var s2 :- EarnUser(s1, user);
      Ok(s2.(vault := SetSyForPt(s2.vault)))
  }

  /** Moves YT from the vault's position to a user's. */
  function DepositYt(s: State, rate: Number, now: nat, user: Pubkey, amount: nat): Result<State, Error> {
    if !IsActive(s.vault, now) then Err(VaultIsNotActive)
    else
      var s1 :- UpdateYield(s, rate, now);
      if Emergency(s1.vault) then Err(VaultInEmergencyMode)
      else
        var s2 :- EarnUser(s1, user);
        if s2.robot.yt < amount then Err(Abort)
        else Ok(State(SetSyForPt(s2.vault), s2.robot.(yt := s2.robot.yt - amount),
                      s2.users[user := s2.users[user].(yt := s2.users[user].yt + amount)]))
  }

  /** Moves YT back. Unlike a deposit, a withdrawal is not refused in emergency mode. */
  function WithdrawYt(s: State, rate: Number, now: nat, user: Pubkey, amount: nat): Result<State, Error> {
    if !IsActive(s.vault, now) then Err(VaultIsNotActive)
    else
      var s1 :- UpdateYield(s, rate, now);
      var s2 :- EarnUser(s1, user);
      if s2.users[user].yt < amount then Err(Abort)
      else Ok(State(SetSyForPt(s2.vault), s2.robot.(yt := s2.robot.yt + amount),
                    s2.users[user := s2.users[user].(yt := s2.users[user].yt - amount)]))
  }

  /** Pays out staged interest. The rate is not read and the PT backing is not recomputed. */
  function CollectInterest(s: State, user: Pubkey, amount: nat): Result<State, Error> {
    if user !in s.users then Err(AccountMissing)
    else if s.users[user].staged < amount then Err(AmountTooLarge)
    else
      var s1 :- EarnUser(s, user);
      var v, p := s1.vault, s1.users[user];
      if v.totalSy < amount || p.staged < amount || v.uncollected < amount then Err(Abort)
      else Ok(s1.(vault := v.(totalSy := v.totalSy - amount, uncollected := v.uncollected - amount),
                  users := s1.users[user := p.(staged := p.staged - amount)]))
  }

  /** The curator collects what the vault's own position has staged. */
  function CollectRobot(s: State, amount: nat): Result<State, Error> {
    var v := s.vault;
    if s.robot.staged < amount then Err(AmountTooLarge)
    else if v.totalSy < amount || v.uncollected < amount then Err(Abort)
    else Ok(s.(vault := v.(totalSy := v.totalSy - amount, uncollected := v.uncollected - amount),
               robot := s.robot.(staged := s.robot.staged - amount)))
  }

  function CollectTreasury(s: State, amount: nat): Result<State, Error> {
    var v := s.vault;
    if v.treasury < amount then Err(AmountTooLarge)
    else if v.totalSy < amount then Err(Abort)
    else Ok(s.(vault := v.(totalSy := v.totalSy - amount, treasury := v.treasury - amount)))
  }

  function InitializePosition(s: State, user: Pubkey): Result<State, Error> {
    if user in s.users then Err(Abort)
    else Ok(s.(users := s.users[user := YieldPosition(0, 0, 0)]))
  }

  // ---------- Runs ----------

  datatype Op =
    | StripOp(rate: Number, now: nat, amount: nat)
    | MergeOp(rate: Number, now: nat, amount: nat)
    | StageOp(rate: Number, now: nat, user: Pubkey)
    | DepositOp(rate: Number, now: nat, user: Pubkey, amount: nat)
    | WithdrawOp(rate: Number, now: nat, user: Pubkey, amount: nat)
    | CollectOp(user: Pubkey, amount: nat)
    | CollectRobotOp(amount: nat)
    | CollectTreasuryOp(amount: nat)
    | InitializeOp(user: Pubkey)

  function Apply(s: State, op: Op): Result<State, Error> {
    match op
    case StripOp(rate, now, amount) => Strip(s, rate, now, amount)
    case MergeOp(rate, now, amount) => Merge(s, rate, now, amount)
    case StageOp(rate, now, user) => StageYield(s, rate, now, user)
    case DepositOp(rate, now, user, amount) => DepositYt(s, rate, now, user, amount)
    case WithdrawOp(rate, now, user, amount) => WithdrawYt(s, rate, now, user, amount)
    case CollectOp(user, amount) => CollectInterest(s, user, amount)
    case CollectRobotOp(amount) => CollectRobot(s, amount)
    case CollectTreasuryOp(amount) => CollectTreasury(s, amount)
    case InitializeOp(user) => InitializePosition(s, user)
  }

  /** A newly initialised vault has never seen a rate. */
  function NewVault(startTs: nat, duration: nat, maxPySupply: nat): State {
    State(Vault(startTs, duration, 0, 0, 0, 0, 0, 0, 0, 0, maxPySupply), YieldPosition(0, 0, 0), map[])
  }
}
