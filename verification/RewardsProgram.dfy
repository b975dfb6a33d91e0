/** The rewards program as it runs: one object whose handlers update its fields in place. */
module RewardsProgram {
  import opened Foundations
  import opened Numbers
  import opened Rewards
  import opened FarmLedger
  import opened RewardsLedger
  import RewardsTheorems
  import opened RewardsStakes

  class FarmState {
    var totalStaked: nat
    var lastUpdateTs: nat
    var farms: seq<Farm>
    var positions: map<Pubkey, Position>
    var lpEscrow: nat
    var rewardEscrow: map<Pubkey, nat>

    function State(): State
      reads this
    {
      Rewards.State(totalStaked, lastUpdateTs, farms, positions, lpEscrow, rewardEscrow)
    }

    /** The escrow accounts may already hold tokens when the farm state is initialised. */
    constructor (now: nat, lpEscrow: nat, rewardEscrow: map<Pubkey, nat>)
      ensures State() == Rewards.State(0, now, [], map[], lpEscrow, rewardEscrow)
    {
      totalStaked, lastUpdateTs, farms, positions := 0, now, [], map[];
      this.lpEscrow, this.rewardEscrow := lpEscrow, rewardEscrow;
    }

    /** What the runtime does with a transaction that fails. */
    method Rollback(before: State)
      modifies this
      ensures State() == before
    {
      totalStaked, lastUpdateTs, farms := before.totalStaked, before.lastTs, before.farms;
      positions, lpEscrow, rewardEscrow := before.positions, before.lpEscrow, before.rewardEscrow;
    }

    method UpdateIndexes(now: nat)
      modifies this`farms, this`lastUpdateTs
      ensures State() == Rewards.UpdateIndexes(old(State()), now)
    {
      if totalStaked == 0 {
        lastUpdateTs := now;
        return;
      }
      var i := 0;
      while i < |farms|
        invariant i <= |farms| == |old(farms)|
        invariant forall j :: 0 <= j < i ==> farms[j] == Accrued(old(farms)[j], lastUpdateTs, now, totalStaked)
        invariant forall j :: i <= j < |farms| ==> farms[j] == old(farms)[j]
        invariant lastUpdateTs == old(lastUpdateTs)
      {
        var activeEnd := Min(farms[i].expiry, now);
        if lastUpdateTs < activeEnd {
          var emitted := farms[i].rate * (activeEnd - lastUpdateTs);
          farms := farms[i := farms[i].(index := farms[i].index + FromRatio(emitted, totalStaked))];
        }
        i := i + 1;
      }
      lastUpdateTs := now;
    }

    /** Pads the position with fresh trackers, then credits it farm by farm. */
    method SettleUser(position: Position) returns (r: Result<Position, Error>)
      ensures r == SettlePosition(farms, position)
    {
      var perFarm := position.perFarm;
      while |perFarm| < |farms|
        invariant |position.perFarm| <= |perFarm| <= Max(|farms|, |position.perFarm|)
        invariant forall j :: 0 <= j < |perFarm| ==> perFarm[j] == TrackerAt(position, j)
      {
        perFarm := perFarm + [FRESH];
      }
      var i := 0;
      while i < |farms|
        invariant i <= |farms|
        invariant |perFarm| == Max(|farms|, |position.perFarm|)
        invariant forall j :: 0 <= j < i ==>
          && Earned(farms[j], TrackerAt(position, j).lastSeen, position.staked) <= U64_MAX
          && perFarm[j] == SettledTracker(farms[j], TrackerAt(position, j), position.staked)
        invariant forall j :: i <= j < |perFarm| ==> perFarm[j] == TrackerAt(position, j)
      {
        var claimable := perFarm[i].claimable;
        if perFarm[i].lastSeen <= farms[i].index {
          var earned := Floor(Mul(farms[i].index - perFarm[i].lastSeen, FromNatural(position.staked)));
          if earned > U64_MAX {
            assert Earned(farms[i], TrackerAt(position, i).lastSeen, position.staked) > U64_MAX;
            return Err(Abort);
          }
          claimable := SatAdd(claimable, earned);
        }
        perFarm := perFarm[i := Tracker(farms[i].index, claimable)];
        i := i + 1;
      }
      assert perFarm == SettledPosition(farms, position).perFarm;
      r := Ok(position.(perFarm := perFarm));
    }

    /** The checks and updates every staking handler starts with. */
    method Touch(position: Position, now: nat) returns (r: Result<Position, Error>)
      modifies this`farms, this`lastUpdateTs
      ensures match Rewards.Touch(old(State()), position, now)
              case Err(e) => r == Err(e)
              case Ok((s1, settled)) => r == Ok(settled) && State() == s1
    {
      if position.capacity < |farms| {
        return Err(StalePosition);
      }
      UpdateIndexes(now);
      r := SettleUser(position);
    }

    method StakeLp(owner: Pubkey, amount: nat, now: nat) returns (r: Result<(), Error>)
      modifies this
      ensures match Stake(old(State()), owner, amount, now)
              case Err(e) => r == Err(e) && State() == old(State())
              case Ok(s') => r == Ok(()) && State() == s'
      ensures r.Ok? ==>
                && StakeOf(State(), owner) == StakeOf(old(State()), owner) + amount
                && totalStaked == old(totalStaked) + amount && lpEscrow == old(lpEscrow) + amount
    {
      if amount == 0 {
        return Err(ZeroAmount);
      }
      var before := State();
      var touched := Touch(PositionOrNew(before, owner), now);
      if touched.Err? {
        Rollback(before);
        return Err(touched.error);
      }
      TouchMovesNoStake(before, owner, now);
      var position := touched.value;
      if totalStaked + amount > U64_MAX || position.staked + amount > U64_MAX {
        Rollback(before);
        return Err(Overflow);
      }
      lpEscrow := lpEscrow + amount;
      totalStaked := totalStaked + amount;
      positions := positions[owner := position.(staked := position.staked + amount)];
      r := Ok(());
    }

    method UnstakeLp(owner: Pubkey, amount: nat, now: nat) returns (r: Result<(), Error>)
      modifies this
      ensures match Unstake(old(State()), owner, amount, now)
              case Err(e) => r == Err(e) && State() == old(State())
              case Ok(s') => r == Ok(()) && State() == s'
      ensures r.Ok? ==>
                && StakeOf(State(), owner) == StakeOf(old(State()), owner) - amount
                && totalStaked == SatSub(old(totalStaked), amount) && lpEscrow == old(lpEscrow) - amount
    {
      if owner !in positions {
        return Err(AccountMissing);
      }
      if amount == 0 {
        return Err(ZeroAmount);
      }
      var before := State();
      var touched := Touch(positions[owner], now);
      if touched.Err? {
        Rollback(before);
        return Err(touched.error);
      }
      TouchMovesNoStake(before, owner, now);
      var position := touched.value;
      if position.staked < amount {
        Rollback(before);
        return Err(InsufficientStake);
      }
      positions := positions[owner := position.(staked := position.staked - amount)];
      totalStaked := SatSub(totalStaked, amount);
      if lpEscrow < amount {
        Rollback(before);
        return Err(TransferFailed);
      }
      lpEscrow := lpEscrow - amount;
      r := Ok(());
    }

    method ClaimFarmEmission(owner: Pubkey, mint: Pubkey, now: nat) returns (r: Result<(), Error>)
      modifies this
      ensures match Claim(old(State()), owner, mint, now)
              case Err(e) => r == Err(e) && State() == old(State())
              case Ok(s') => r == Ok(()) && State() == s'
    {
      if owner !in positions {
        return Err(AccountMissing);
      }
      var before := State();
      var touched := Touch(positions[owner], now);
      if touched.Err? {
        Rollback(before);
        return Err(touched.error);
      }
      var position, i := touched.value, FarmIndex(farms, mint);
      if i == |farms| {
        Rollback(before);
        return Err(FarmNotFound);
      }
      var claimable := position.perFarm[i].claimable;
      if claimable == 0 {
        Rollback(before);
        return Err(ZeroAmount);
      }
      positions := positions[owner := CashedIn(position, i)];
      if Balance(rewardEscrow, mint) < claimable {
        Rollback(before);
        return Err(TransferFailed);
      }
      rewardEscrow := rewardEscrow[mint := Balance(rewardEscrow, mint) - claimable];
      r := Ok(());
    }

    method AddFarm(mint: Pubkey, rate: nat, expiry: nat) returns (r: Result<(), Error>)
      modifies this
      ensures match Rewards.AddFarm(old(State()), mint, rate, expiry)
              case Err(e) => r == Err(e) && State() == old(State())
              case Ok(s') => r == Ok(()) && State() == s'
      ensures r.Err? <==> exists f :: f in old(farms) && f.mint == mint
      ensures RewardsTheorems.DistinctMints(old(farms)) ==> RewardsTheorems.DistinctMints(farms)
      ensures r.Ok? ==> forall hist: seq<History> :: Inv(World(old(State()), hist)) ==>
                Inv(World(State(), hist + [History(NO_TOTALS, map[])]))
    {
      ghost var before := State();
      if FarmIndex(farms, mint) < |farms| {
        return Err(FarmAlreadyExists);
      }
      farms := farms + [Farm(mint, rate, expiry, 0)];
      forall hist: seq<History> | Inv(World(before, hist))
        ensures Inv(World(State(), hist + [History(NO_TOTALS, map[])]))
      {
        AddFarmHolds(World(before, hist), Farm(mint, rate, expiry, 0));
      }
      r := Ok(());
    }

    method RefillFarm(mint: Pubkey, amount: nat) returns (r: Result<(), Error>)
      modifies this
      ensures match Refill(old(State()), mint, amount)
              case Err(e) => r == Err(e) && State() == old(State())
              case Ok(s') => r == Ok(()) && State() == s'
      ensures r.Ok? <==> amount > 0 && exists f :: f in farms && f.mint == mint
      ensures forall m :: Balance(rewardEscrow, m)
                          == Balance(old(rewardEscrow), m) + if r.Ok? && m == mint then amount else 0
      ensures forall hist: seq<History> :: Inv(World(old(State()), hist)) ==> Inv(World(State(), hist))
    {
      ghost var before := State();
      if amount == 0 {
        return Err(ZeroAmount);
      }
      if FarmIndex(farms, mint) == |farms| {
        return Err(FarmNotFound);
      }
      rewardEscrow := rewardEscrow[mint := Balance(rewardEscrow, mint) + amount];
      forall hist: seq<History> | Inv(World(before, hist)) ensures Inv(World(State(), hist)) {
        SameBooksHold(World(before, hist), State());
      }
      r := Ok(());
    }

    method ReallocStakePosition(owner: Pubkey) returns (r: Result<(), Error>)
      modifies this
      ensures match ReallocPosition(old(State()), owner)
              case Err(e) => r == Err(e) && State() == old(State())
              case Ok(s') => r == Ok(()) && State() == s'
    {
      if owner !in positions {
        return Err(AccountMissing);
      }
      positions := positions[owner := positions[owner].(capacity := |farms|)];
      r := Ok(());
    }
  }
}
