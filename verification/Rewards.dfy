/**
 The farm rewards program as transitions on values.

 One index per farm (reward tokens per staked LP, scaled by 1e12) is advanced by every handler
 that touches a position, and a position is credited lazily, when it is next touched.
 A transition that returns an error stands for a transaction the runtime rolls back.
 */
module Rewards {
  import opened Foundations
  import opened Numbers

  type Pubkey = nat

  datatype Farm = Farm(mint: Pubkey, rate: nat, expiry: nat, index: Number)

  datatype Tracker = Tracker(lastSeen: Number, claimable: nat)

  const FRESH := Tracker(0, 0)

  /** `capacity` is the number of trackers the position's account is large enough to store. */
  datatype Position = Position(staked: nat, perFarm: seq<Tracker>, capacity: nat)

  datatype State = State(
    totalStaked: nat,
    lastTs: nat,
    farms: seq<Farm>,
    positions: map<Pubkey, Position>,
    lpEscrow: nat,
    rewardEscrow: map<Pubkey, nat>)

  datatype Error =
    | FarmAlreadyExists
    | FarmNotFound
    | ZeroAmount
    | StalePosition
    | InsufficientStake
    | Overflow
    | AccountMissing
    | TransferFailed
    | Abort

  // ---------- Accrual ----------

  /** The seconds of this farm's stream that an update at `now` pays for. */
  function ActiveSeconds(farm: Farm, lastTs: nat, now: nat): nat {
    SatSub(Min(farm.expiry, now), lastTs)
  }

  function Emission(farm: Farm, lastTs: nat, now: nat): nat {
    farm.rate * ActiveSeconds(farm, lastTs, now)
  }

  function Accrued(farm: Farm, lastTs: nat, now: nat, total: nat): Farm {
    if lastTs >= Min(farm.expiry, now) then farm
    else farm.(index := farm.index + FromRatio(Emission(farm, lastTs, now), total))
  }

  function UpdateIndexes(s: State, now: nat): State {
    if s.totalStaked == 0 then s.(lastTs := now)
    else
      s.(farms := seq(|s.farms|, i requires 0 <= i < |s.farms| => Accrued(s.farms[i], s.lastTs, now, s.totalStaked)),
         lastTs := now)
  }

  // ---------- Settlement ----------

  function Earned(farm: Farm, seen: Number, staked: nat): nat {
    if farm.index < seen then 0 else Floor(Mul(farm.index - seen, FromNatural(staked)))
  }

  function SettledTracker(farm: Farm, t: Tracker, staked: nat): Tracker {
    Tracker(farm.index,
            if farm.index < t.lastSeen then t.claimable else SatAdd(t.claimable, Earned(farm, t.lastSeen, staked)))
  }

  /** A farm beyond the position's trackers is one it has not met: nothing seen, nothing claimable. */
  function TrackerAt(pos: Position, i: nat): Tracker {
    if i < |pos.perFarm| then pos.perFarm[i] else FRESH
  }

  /** Crediting a position aborts when one farm owes it more than a u64. */
  function SettlePosition(farms: seq<Farm>, pos: Position): Result<Position, Error> {
    if exists i | 0 <= i < |farms| :: Earned(farms[i], TrackerAt(pos, i).lastSeen, pos.staked) > U64_MAX then Err(Abort)
    else Ok(SettledPosition(farms, pos))
  }

  function SettledPosition(farms: seq<Farm>, pos: Position): Position {
    pos.(perFarm := seq(Max(|farms|, |pos.perFarm|), i requires 0 <= i < Max(|farms|, |pos.perFarm|) =>
      if i < |farms| then SettledTracker(farms[i], TrackerAt(pos, i), pos.staked) else pos.perFarm[i]))
  }

  // ---------- Handlers ----------

  /** The prologue of every handler that touches a position: check its size, advance the indexes, settle it. */
  function Touch(s: State, pos: Position, now: nat): Result<(State, Position), Error> {
    if pos.capacity < |s.farms| then Err(StalePosition)
    else
      var s1 := UpdateIndexes(s, now);
      var settled :- SettlePosition(s1.farms, pos);
      Ok((s1, settled))
  }

  /** The account the owner stakes from; the first stake creates it sized for the farms of that moment. */
  function PositionOrNew(s: State, owner: Pubkey): Position {
    if owner in s.positions then s.positions[owner] else Position(0, [], |s.farms|)
  }

  function PutIn(s: State, owner: Pubkey, pos: Position, amount: nat): Result<State, Error> {
    if s.totalStaked + amount > U64_MAX || pos.staked + amount > U64_MAX then Err(Overflow)
    else Ok(s.(totalStaked := s.totalStaked + amount,
               lpEscrow := s.lpEscrow + amount,
               positions := s.positions[owner := pos.(staked := pos.staked + amount)]))
  }

  function Stake(s: State, owner: Pubkey, amount: nat, now: nat): Result<State, Error> {
    if amount == 0 then Err(ZeroAmount)
    else
      var (s1, pos) :- Touch(s, PositionOrNew(s, owner), now);
      PutIn(s1, owner, pos, amount)
  }

  function TakeOut(s: State, owner: Pubkey, pos: Position, amount: nat): Result<State, Error> {
    if pos.staked < amount then Err(InsufficientStake)
    else if s.lpEscrow < amount then Err(TransferFailed)
    else Ok(s.(totalStaked := SatSub(s.totalStaked, amount),
               lpEscrow := s.lpEscrow - amount,
               positions := s.positions[owner := pos.(staked := pos.staked - amount)]))
  }

  function Unstake(s: State, owner: Pubkey, amount: nat, now: nat): Result<State, Error> {
    if owner !in s.positions then Err(AccountMissing)
    else if amount == 0 then Err(ZeroAmount)
    else
      var (s1, pos) :- Touch(s, s.positions[owner], now);
      TakeOut(s1, owner, pos, amount)
  }

  /** The slot of a reward mint, or the number of farms when it has none. */
  function FarmIndex(farms: seq<Farm>, mint: Pubkey): (i: nat)
    ensures i <= |farms|
    ensures i < |farms| ==> farms[i].mint == mint
    ensures forall j :: 0 <= j < i ==> farms[j].mint != mint
  {
    if farms == [] then 0
    else if farms[0].mint == mint then 0
    else
      var i := FarmIndex(farms[1..], mint);
      assert forall j :: 0 < j < i + 1 ==> farms[j] == farms[1..][j - 1];
      i + 1
  }

  function Balance(escrow: map<Pubkey, nat>, mint: Pubkey): nat {
    if mint in escrow then escrow[mint] else 0
  }

  function CashedIn(pos: Position, i: nat): Position
    requires i < |pos.perFarm|
  {
    pos.(perFarm := pos.perFarm[i := pos.perFarm[i].(claimable := 0)])
  }

  /** Pays a settled position everything one farm has credited to it. */
  function PayOut(s: State, owner: Pubkey, pos: Position, mint: Pubkey): Result<State, Error>
    requires |s.farms| <= |pos.perFarm|
  {
    var i := FarmIndex(s.farms, mint);
    if i == |s.farms| then Err(FarmNotFound)
    else
      var due := pos.perFarm[i].claimable;
      if due == 0 then Err(ZeroAmount)
      else if Balance(s.rewardEscrow, mint) < due then Err(TransferFailed)
      else Ok(s.(rewardEscrow := s.rewardEscrow[mint := Balance(s.rewardEscrow, mint) - due],
                 positions := s.positions[owner := CashedIn(pos, i)]))
  }

  function Claim(s: State, owner: Pubkey, mint: Pubkey, now: nat): Result<State, Error> {
    if owner !in s.positions then Err(AccountMissing)
    else
      var (s1, pos) :- Touch(s, s.positions[owner], now);
      PayOut(s1, owner, pos, mint)
  }

  /** Adding a farm does not advance the indexes first. */
  function AddFarm(s: State, mint: Pubkey, rate: nat, expiry: nat): Result<State, Error> {
    if FarmIndex(s.farms, mint) < |s.farms| then Err(FarmAlreadyExists)
    else Ok(s.(farms := s.farms + [Farm(mint, rate, expiry, 0)]))
  }

  function Refill(s: State, mint: Pubkey, amount: nat): Result<State, Error> {
    if amount == 0 then Err(ZeroAmount)
    else if FarmIndex(s.farms, mint) == |s.farms| then Err(FarmNotFound)
    else Ok(s.(rewardEscrow := s.rewardEscrow[mint := Balance(s.rewardEscrow, mint) + amount]))
  }

  function ReallocPosition(s: State, owner: Pubkey): Result<State, Error> {
    if owner !in s.positions then Err(AccountMissing)
    else Ok(s.(positions := s.positions[owner := s.positions[owner].(capacity := |s.farms|)]))
  }
}
