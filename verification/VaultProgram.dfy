/**
 The vault and yield-position accounts as they are updated in place.

 A handler that returns an error may leave its accounts half-written; the runtime then discards the
 whole transaction, so the contracts promise the new state of accepted calls only.
 */
module VaultProgram {
  import opened Foundations
  import opened Numbers
  import opened Vaults
  import VaultBooks

  class VaultAccount {
    const startTs: nat
    const duration: nat
    const maxPySupply: nat
    var lastSeenSyExchangeRate: Number
    var allTimeHighSyExchangeRate: Number
    var finalSyExchangeRate: Number
    var totalSyInEscrow: nat
    var syForPt: nat
    var ptSupply: nat
    var treasurySy: nat
    var uncollectedSy: nat

    function Data(): Vault
      reads this
    {
      Vault(startTs, duration, lastSeenSyExchangeRate, allTimeHighSyExchangeRate, finalSyExchangeRate,
            totalSyInEscrow, syForPt, ptSupply, treasurySy, uncollectedSy, maxPySupply)
    }

    constructor (startTs: nat, duration: nat, maxPySupply: nat)
      ensures Data() == NewVault(startTs, duration, maxPySupply).vault
    {
      this.startTs, this.duration, this.maxPySupply := startTs, duration, maxPySupply;
      lastSeenSyExchangeRate, allTimeHighSyExchangeRate, finalSyExchangeRate := 0, 0, 0;
      totalSyInEscrow, syForPt, ptSupply, treasurySy, uncollectedSy := 0, 0, 0, 0, 0;
    }

    method RefreshBacking()
      modifies this`syForPt
      ensures Data() == SetSyForPt(old(Data()))
    {
      syForPt := SyBackingForPt(lastSeenSyExchangeRate, ptSupply, ActiveSy(Data()));
    }

    method UpdateFromSyState(rate: Number, now: nat)
      modifies this
      ensures Data() == Vaults.UpdateFromSyState(old(Data()), rate, now)
    {
      hide SyBackingForPt, Appreciation;
      if IsExpired(Data(), now) && rate > allTimeHighSyExchangeRate {
        var surplus := Appreciation(lastSeenSyExchangeRate, rate, ActiveSy(Data()));
        treasurySy := treasurySy + surplus;
      }
      lastSeenSyExchangeRate := rate;
      allTimeHighSyExchangeRate := Max(rate, allTimeHighSyExchangeRate);
      if IsActive(Data(), now) {
        finalSyExchangeRate := rate;
      }
      RefreshBacking();
    }

    method CollectTreasuryInterest(amount: nat) returns (r: Result<(), Error>)
      modifies this
      ensures match CollectTreasury(State(old(Data()), YieldPosition(0, 0, 0), map[]), amount)
              case Err(e) => r == Err(e)
              case Ok(s') => r == Ok(()) && Data() == s'.vault
    {
      if treasurySy < amount {
        return Err(AmountTooLarge);
      }
      treasurySy := treasurySy - amount;
      if totalSyInEscrow < amount {
        return Err(Abort);
      }
      totalSyInEscrow := totalSyInEscrow - amount;
      r := Ok(());
    }
  }

  class YieldTokenPosition {
    var ytBalance: nat
    var lastSeenIndex: Number
    var staged: nat

    function Data(): YieldPosition
      reads this
    {
      YieldPosition(ytBalance, lastSeenIndex, staged)
    }

    constructor ()
      ensures Data() == YieldPosition(0, 0, 0)
    {
      ytBalance, lastSeenIndex, staged := 0, 0, 0;
    }

    method EarnAll(vault: VaultAccount) returns (r: Result<(), Error>)
      modifies this, vault
      ensures match Earn(old(vault.Data()), old(Data()))
              case Err(e) => r == Err(e)
              case Ok((v, p)) => r == Ok(()) && vault.Data() == v && Data() == p
    {
      hide EarnedSy, ScaleToCurrent;
      if !Emergency(vault.Data()) {
        var rate := vault.finalSyExchangeRate;
        var earned := EarnedSy(ytBalance, lastSeenIndex, rate);
        earned := ScaleToCurrent(earned, rate, vault.lastSeenSyExchangeRate);
        staged := staged + earned;
        vault.uncollectedSy := vault.uncollectedSy + earned;
        lastSeenIndex := rate;
      }
      if vault.finalSyExchangeRate == 0 {
        return Err(Abort);
      }
      r := Ok(());
    }
  }

  /** The three accounts of an instruction, seen as a state with a single user. */
  function Accounts(vault: VaultAccount, robot: YieldTokenPosition, user: YieldTokenPosition): State
    reads vault, robot, user
  {
    State(vault.Data(), robot.Data(), map[0 := user.Data()])
  }

  method UpdateVaultYield(vault: VaultAccount, robot: YieldTokenPosition, rate: Number, now: nat)
    returns (r: Result<(), Error>)
    modifies vault, robot
    ensures match UpdateYield(State(old(vault.Data()), old(robot.Data()), map[]), rate, now)
            case Err(e) => r == Err(e)
            case Ok(s') => r == Ok(()) && vault.Data() == s'.vault && robot.Data() == s'.robot
  {
    hide EarnedBy, SyBackingForPt, Skim;
    vault.UpdateFromSyState(rate, now);
    r := robot.EarnAll(vault);
  }

  method HandleStrip(vault: VaultAccount, robot: YieldTokenPosition, rate: Number, now: nat, amountSy: nat)
    returns (r: Result<nat, Error>)
    modifies vault, robot
    ensures match Strip(State(old(vault.Data()), old(robot.Data()), map[]), rate, now, amountSy)
            case Err(e) => r == Err(e)
            case Ok(s') => r == Ok(SyToPy(rate, amountSy)) && vault.Data() == s'.vault && robot.Data() == s'.robot
  {
    hide SyToPy, SyBackingForPt, UpdateYield;
    if !IsActive(vault.Data(), now) {
      return Err(VaultIsNotActive);
    }
    if rate == 0 {
      return Err(InvalidExchangeRate);
    }
    var updated := UpdateVaultYield(vault, robot, rate, now);
    if updated.Err? {
      return Err(updated.error);
    }
    UpdateYieldRate(State(old(vault.Data()), old(robot.Data()), map[]), rate, now);
    if Emergency(vault.Data()) {
      return Err(VaultInEmergencyMode);
    }
    var amountPy := SyToPy(vault.lastSeenSyExchangeRate, amountSy);
    vault.totalSyInEscrow := vault.totalSyInEscrow + amountSy;
    vault.ptSupply := vault.ptSupply + amountPy;
    if vault.ptSupply > vault.maxPySupply {
      return Err(Abort);
    }
    robot.ytBalance := robot.ytBalance + amountPy;
    vault.RefreshBacking();
    r := Ok(amountPy);
  }

  lemma UpdateYieldRate(s: State, rate: Number, now: nat)
    ensures UpdateYield(s, rate, now).Ok? ==> UpdateYield(s, rate, now).value.vault.lastSeen == rate
  {
    hide SyBackingForPt, EarnedBy, Skim;
  }

  method HandleMerge(vault: VaultAccount, robot: YieldTokenPosition, rate: Number, now: nat, amountPy: nat)
    returns (r: Result<nat, Error>)
    modifies vault, robot
    ensures var s := State(old(vault.Data()), old(robot.Data()), map[]);
            match Merge(s, rate, now, amountPy)
            case Err(e) => r == Err(e)
            case Ok(s') => r.Ok? && vault.Data() == s'.vault && robot.Data() == s'.robot
                           && r.value + s'.vault.totalSy == s.vault.totalSy
  {
    hide MergedSy, SyBackingForPt, UpdateYield;
    if rate == 0 {
      return Err(InvalidExchangeRate);
    }
    var updated := UpdateVaultYield(vault, robot, rate, now);
    if updated.Err? {
      return Err(updated.error);
    }
    UpdateYieldEscrow(State(old(vault.Data()), old(robot.Data()), map[]), rate, now);
    if Emergency(vault.Data()) {
      return Err(VaultInEmergencyMode);
    }
    if IsActive(vault.Data(), now) {
      if robot.ytBalance < amountPy {
        return Err(Abort);
      }
      robot.ytBalance := robot.ytBalance - amountPy;
    }
    var amountSy := MergedSy(vault.Data(), amountPy);
    if vault.totalSyInEscrow < amountSy || vault.ptSupply < amountPy {
      return Err(Abort);
    }
    vault.totalSyInEscrow := vault.totalSyInEscrow - amountSy;
    vault.ptSupply := vault.ptSupply - amountPy;
    vault.RefreshBacking();
    r := Ok(amountSy);
  }

  lemma UpdateYieldEscrow(s: State, rate: Number, now: nat)
    ensures UpdateYield(s, rate, now).Ok? ==> UpdateYield(s, rate, now).value.vault.totalSy == s.vault.totalSy
  {
    hide SyBackingForPt, EarnedBy, Skim;
  }

  /** The prologue of the handlers on a user's position. The two positions are distinct accounts. */
  method UpdateAndEarn(vault: VaultAccount, robot: YieldTokenPosition, user: YieldTokenPosition,
                       rate: Number, now: nat, allowEmergency: bool)
    returns (r: Result<(), Error>)
    requires robot != user
    modifies vault, robot, user
    ensures var s := old(Accounts(vault, robot, user));
            match UpdateYield(s, rate, now)
            case Err(e) => r == Err(e)
            case Ok(s1) =>
              if Emergency(s1.vault) && !allowEmergency then r == Err(VaultInEmergencyMode)
              else
                match EarnUser(s1, 0)
                case Err(e) => r == Err(e)
                case Ok(s2) => r == Ok(()) && Accounts(vault, robot, user) == s2
  {
    ghost var s := Accounts(vault, robot, user);
    var updated := UpdateVaultYield(vault, robot, rate, now);
    SameForAnyUsers(s.vault, s.robot, s.users, rate, now);
    hide UpdateYield, EarnedBy;
    if updated.Err? {
      return Err(updated.error);
    }
    if Emergency(vault.Data()) && !allowEmergency {
      return Err(VaultInEmergencyMode);
    }
    r := user.EarnAll(vault);
  }

  lemma SameForAnyUsers(v: Vault, robot: YieldPosition, users: map<Pubkey, YieldPosition>, rate: Number, now: nat)
    ensures match UpdateYield(State(v, robot, map[]), rate, now)
            case Err(e) => UpdateYield(State(v, robot, users), rate, now) == Err(e)
            case Ok(s) => UpdateYield(State(v, robot, users), rate, now) == Ok(s.(users := users))
  {
    hide SyBackingForPt, EarnedBy, Skim;
  }

  method HandleStageYield(vault: VaultAccount, robot: YieldTokenPosition, user: YieldTokenPosition, rate: Number,
                          now: nat)
    returns (r: Result<(), Error>)
    requires robot != user
    modifies vault, robot, user
    ensures match StageYield(old(Accounts(vault, robot, user)), rate, now, 0)
            case Err(e) => r == Err(e)
            case Ok(s') => r == Ok(()) && Accounts(vault, robot, user) == s'
  {
    hide UpdateYield, EarnUser, SyBackingForPt;
    r := UpdateAndEarn(vault, robot, user, rate, now, false);
    if r.Ok? {
      vault.RefreshBacking();
    }
  }

  method HandleDepositYt(vault: VaultAccount, robot: YieldTokenPosition, user: YieldTokenPosition,
                         rate: Number, now: nat, amount: nat)
    returns (r: Result<(), Error>)
    requires robot != user
    modifies vault, robot, user
    ensures match DepositYt(old(Accounts(vault, robot, user)), rate, now, 0, amount)
            case Err(e) => r == Err(e)
            case Ok(s') => r == Ok(()) && Accounts(vault, robot, user) == s'
    ensures r.Ok? ==>
              && user.ytBalance == old(user.ytBalance) + amount && robot.ytBalance == old(robot.ytBalance) - amount
              && vault.ptSupply == old(vault.ptSupply) && vault.totalSyInEscrow == old(vault.totalSyInEscrow)
  {
    hide UpdateYield, EarnUser, SyBackingForPt;
    if !IsActive(vault.Data(), now) {
      return Err(VaultIsNotActive);
    }
    r := UpdateAndEarn(vault, robot, user, rate, now, false);
    if r.Ok? {
      ghost var s2 := Accounts(vault, robot, user);
      user.ytBalance := user.ytBalance + amount;
      if robot.ytBalance < amount {
        return Err(Abort);
      }
      robot.ytBalance := robot.ytBalance - amount;
      vault.RefreshBacking();
      assert Accounts(vault, robot, user).users == s2.users[0 := user.Data()];
      VaultBooks.UserOpMoves(old(Accounts(vault, robot, user)), DepositOp(rate, now, 0, amount), 0);
    }
  }

  method HandleWithdrawYt(vault: VaultAccount, robot: YieldTokenPosition, user: YieldTokenPosition,
                          rate: Number, now: nat, amount: nat)
    returns (r: Result<(), Error>)
    requires robot != user
    modifies vault, robot, user
    ensures match WithdrawYt(old(Accounts(vault, robot, user)), rate, now, 0, amount)
            case Err(e) => r == Err(e)
            case Ok(s') => r == Ok(()) && Accounts(vault, robot, user) == s'
    ensures r.Ok? ==>
              && user.ytBalance == old(user.ytBalance) - amount && robot.ytBalance == old(robot.ytBalance) + amount
              && vault.ptSupply == old(vault.ptSupply) && vault.totalSyInEscrow == old(vault.totalSyInEscrow)
  {
    hide UpdateYield, EarnUser, SyBackingForPt;
    if !IsActive(vault.Data(), now) {
      return Err(VaultIsNotActive);
    }
    r := UpdateAndEarn(vault, robot, user, rate, now, true);
    if r.Ok? {
      ghost var s2 := Accounts(vault, robot, user);
      if user.ytBalance < amount {
        return Err(Abort);
      }
      user.ytBalance := user.ytBalance - amount;
      robot.ytBalance := robot.ytBalance + amount;
      vault.RefreshBacking();
      assert Accounts(vault, robot, user).users == s2.users[0 := user.Data()];
      VaultBooks.UserOpMoves(old(Accounts(vault, robot, user)), WithdrawOp(rate, now, 0, amount), 0);
    }
  }

  method HandleCollectInterest(vault: VaultAccount, robot: YieldTokenPosition, user: YieldTokenPosition, amount: nat)
    returns (r: Result<(), Error>)
    requires robot != user
    modifies vault, user
    ensures match CollectInterest(old(Accounts(vault, robot, user)), 0, amount)
            case Err(e) => r == Err(e)
            case Ok(s') => r == Ok(()) && Accounts(vault, robot, user) == s'
  {
    hide EarnedBy;
    if user.staged < amount {
      return Err(AmountTooLarge);
    }
    r := user.EarnAll(vault);
    if r.Ok? {
      ghost var s1 := Accounts(vault, robot, user);
      if vault.totalSyInEscrow < amount || user.staged < amount || vault.uncollectedSy < amount {
        return Err(Abort);
      }
      vault.totalSyInEscrow := vault.totalSyInEscrow - amount;
      user.staged := user.staged - amount;
      vault.uncollectedSy := vault.uncollectedSy - amount;
      assert Accounts(vault, robot, user).users == s1.users[0 := user.Data()];
    }
  }
}
