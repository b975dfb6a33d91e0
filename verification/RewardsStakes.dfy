/** What each staker has put in and can take out, read off the operations of a run. */
module RewardsStakes {
  import opened Foundations
  import opened Numbers
  import opened Rewards
  import opened RewardsLedger
  import opened RewardsTheorems

  function StakeOf(s: State, owner: Pubkey): nat {
    if owner in s.positions then s.positions[owner].staked else 0
  }

  /** Whose operations a sum counts. */
  datatype Who = Everyone | Only(owner: Pubkey)

  predicate Counts(who: Who, owner: Pubkey) {
    who == Everyone || who == Only(owner)
  }

  /** The LP an accepted stake of those counted moves into the pool's escrow. */
  function LpIn(s: State, op: Op, who: Who): nat {
    if op.StakeOp? && Counts(who, op.owner) && Apply(s, op).Ok? then op.amount else 0
  }

  /** The LP an accepted unstake of those counted moves out of it. */
  function LpOut(s: State, op: Op, who: Who): nat {
    if op.UnstakeOp? && Counts(who, op.owner) && Apply(s, op).Ok? then op.amount else 0
  }

  ghost function Staked(w: World, ops: seq<Op>, who: Who): nat
    requires |w.hist| == |w.s.farms|
    decreases |ops|
  {
    if ops == [] then 0
    else
      StepLength(w, ops[0]);
      LpIn(w.s, ops[0], who) + Staked(Step(w, ops[0]), ops[1..], who)
  }

  ghost function Unstaked(w: World, ops: seq<Op>, who: Who): nat
    requires |w.hist| == |w.s.farms|
    decreases |ops|
  {
    if ops == [] then 0
    else
      StepLength(w, ops[0]);
      LpOut(w.s, ops[0], who) + Unstaked(Step(w, ops[0]), ops[1..], who)
  }

  // ---------- One operation ----------

  /** Settling a position credits rewards and moves no stake. */
  lemma TouchMovesNoStake(s: State, owner: Pubkey, now: nat)
    requires Touch(s, PositionOrNew(s, owner), now).Ok?
    ensures var (s1, pos) := Touch(s, PositionOrNew(s, owner), now).value;
            && pos.staked == StakeOf(s, owner) && s1.positions == s.positions && s1.lpEscrow == s.lpEscrow
            && s1.totalStaked == s.totalStaked
  {
    hide Earned, Accrued;
  }

  /** A staker's stake moves by the staker's own stakes and unstakes, the escrow by everyone's. */
  lemma StakingMoves(s: State, op: Op, owner: Pubkey)
    requires (op.StakeOp? || op.UnstakeOp? || op.ClaimOp?) && Apply(s, op).Ok?
    ensures var s' := Apply(s, op).value;
            && StakeOf(s', owner) + LpOut(s, op, Only(owner)) == StakeOf(s, owner) + LpIn(s, op, Only(owner))
            && s'.lpEscrow + LpOut(s, op, Everyone) == s.lpEscrow + LpIn(s, op, Everyone)
  {
    PrologueFirst(s, op);
    TouchMovesNoStake(s, op.owner, op.now);
    hide Apply, Touch, PositionOrNew;
  }

  lemma StepStakes(w: World, op: Op, owner: Pubkey)
    requires Inv(w)
    ensures |Step(w, op).hist| == |Step(w, op).s.farms|
    ensures StakeOf(Step(w, op).s, owner) + LpOut(w.s, op, Only(owner))
         == StakeOf(w.s, owner) + LpIn(w.s, op, Only(owner))
    ensures Step(w, op).s.lpEscrow + LpOut(w.s, op, Everyone) == w.s.lpEscrow + LpIn(w.s, op, Everyone)
  {
    StepLength(w, op);
    if Apply(w.s, op).Ok? && (op.StakeOp? || op.UnstakeOp? || op.ClaimOp?) {
      StakingMoves(w.s, op, owner);
      StepIsApply(w, op);
      hide Step, Apply, Inv, StakeOf;
    } else {
      hide Inv, Stake, Unstake, Claim;
    }
  }

  lemma StepIsApply(w: World, op: Op)
    requires Inv(w) && Apply(w.s, op).Ok?
    ensures Step(w, op).s == Apply(w.s, op).value
  {
    if op.ClaimOp? {
      PrologueFirst(w.s, op);
      TouchedShape(w, op.owner, op.now);
      hide Inv, Touch, Touched, Apply;
    } else {
      hide Inv, Touched, Apply;
    }
  }

  // ---------- Runs ----------

  lemma {:induction false} RunStakes(w: World, ops: seq<Op>, owner: Pubkey)
    requires Inv(w)
    ensures StakeOf(Run(w, ops).s, owner) + Unstaked(w, ops, Only(owner))
         == StakeOf(w.s, owner) + Staked(w, ops, Only(owner))
    ensures Run(w, ops).s.lpEscrow + Unstaked(w, ops, Everyone) == w.s.lpEscrow + Staked(w, ops, Everyone)
    decreases |ops|
  {
    if ops != [] {
      StepStakes(w, ops[0], owner);
      StepHolds(w, ops[0]);
      hide Inv, Step, StakeOf, LpIn, LpOut;
      RunStakes(Step(w, ops[0]), ops[1..], owner);
    }
  }

  /**
   Over any run from a new farm state, whatever anyone else does, a staker's stake is what the staker's accepted
   stakes put in less what the accepted unstakes took out, and the escrow gained exactly the same over everyone.
   */
  lemma StakeIsOwnBooks(now0: nat, lpEscrow: nat, rewardEscrow: map<Pubkey, nat>, ops: seq<Op>, owner: Pubkey)
    ensures var g := Genesis(now0, lpEscrow, rewardEscrow);
            && StakeOf(Run(g, ops).s, owner) == Staked(g, ops, Only(owner)) - Unstaked(g, ops, Only(owner))
            && Run(g, ops).s.lpEscrow == lpEscrow + Staked(g, ops, Everyone) - Unstaked(g, ops, Everyone)
  {
    GenesisHolds(now0, lpEscrow, rewardEscrow);
    RunStakes(Genesis(now0, lpEscrow, rewardEscrow), ops, owner);
    hide Run, Staked, Unstaked, Inv;
  }

  // ---------- What each handler accepts ----------

  /** No farm owes the position more than a u64 since it was last credited. */
  predicate CreditsFit(s: State, pos: Position, now: nat) {
    forall i :: 0 <= i < |s.farms| ==>
      (UpdateIndexes(s, now).farms[i].index - TrackerAt(pos, i).lastSeen) * pos.staked / ONE <= U64_MAX
  }

  /** The checks of every staking handler pass exactly when the account has room for every farm and the credits fit. */
  lemma TouchAcceptedIff(s: State, pos: Position, now: nat)
    ensures Touch(s, pos, now).Ok? <==> |s.farms| <= pos.capacity && CreditsFit(s, pos, now)
    ensures Touch(s, pos, now).Err? ==>
              Touch(s, pos, now).error == if pos.capacity < |s.farms| then StalePosition else Abort
  {
    var f := UpdateIndexes(s, now).farms;
    hide UpdateIndexes, Earned;
    UpdateKeepsCount(s, now);
    forall i | 0 <= i < |f|
      ensures Earned(f[i], TrackerAt(pos, i).lastSeen, pos.staked) <= U64_MAX
         <==> (f[i].index - TrackerAt(pos, i).lastSeen) * pos.staked / ONE <= U64_MAX
    {
      EarnedFits(f[i], TrackerAt(pos, i).lastSeen, pos.staked);
    }
  }

  lemma UpdateKeepsCount(s: State, now: nat)
    ensures |UpdateIndexes(s, now).farms| == |s.farms|
  {
  }

  lemma EarnedFits(farm: Farm, seen: Number, staked: nat)
    ensures Earned(farm, seen, staked) <= U64_MAX <==> (farm.index - seen) * staked / ONE <= U64_MAX
  {
    if farm.index >= seen {
      FloorMulNatural(farm.index - seen, staked);
    } else {
      MulMono(farm.index - seen, 0, staked);
    }
  }

  /** Reallocating a position makes room for every farm of that moment and changes nothing else about it. */
  lemma ReallocMakesRoom(s: State, owner: Pubkey, now: nat)
    ensures ReallocPosition(s, owner).Ok? <==> owner in s.positions
    ensures ReallocPosition(s, owner).Ok? ==>
            var s' := ReallocPosition(s, owner).value;
            && s'.positions.Keys == s.positions.Keys && s' == s.(positions := s'.positions)
            && (forall u :: u in s.positions && u != owner ==> s'.positions[u] == s.positions[u])
            && s'.positions[owner] == s.positions[owner].(capacity := s'.positions[owner].capacity)
            && (Touch(s', s'.positions[owner], now).Ok? <==> CreditsFit(s', s'.positions[owner], now))
  {
    if owner in s.positions {
      TouchAcceptedIff(ReallocPosition(s, owner).value, ReallocPosition(s, owner).value.positions[owner], now);
    }
    hide Touch, CreditsFit;
  }

  lemma StakeAcceptedIff(s: State, owner: Pubkey, amount: nat, now: nat)
    ensures var pos := PositionOrNew(s, owner);
            Stake(s, owner, amount, now).Ok?
            <==> && amount > 0 && |s.farms| <= pos.capacity && CreditsFit(s, pos, now)
                 && s.totalStaked + amount <= U64_MAX && StakeOf(s, owner) + amount <= U64_MAX
  {
    TouchAcceptedIff(s, PositionOrNew(s, owner), now);
    if Touch(s, PositionOrNew(s, owner), now).Ok? {
      TouchMovesNoStake(s, owner, now);
    }
    hide Touch, CreditsFit;
  }

  /**
   After any run from a new farm state, an unstake is accepted exactly when it asks for no more than the staker's
   own stakes less unstakes, the account has room for every farm, and the credits fit.
   */
  lemma UnstakeAcceptedIff(now0: nat, lpEscrow: nat, rewardEscrow: map<Pubkey, nat>, ops: seq<Op>, owner: Pubkey,
                           amount: nat, now: nat)
    ensures var g := Genesis(now0, lpEscrow, rewardEscrow);
            var s := Run(g, ops).s;
            var pos := PositionOrNew(s, owner);
            Unstake(s, owner, amount, now).Ok?
            <==> && 0 < amount <= Staked(g, ops, Only(owner)) - Unstaked(g, ops, Only(owner))
                 && |s.farms| <= pos.capacity && CreditsFit(s, pos, now)
  {
    StakeIsOwnBooks(now0, lpEscrow, rewardEscrow, ops, owner);
    UnstakeAlwaysPayable(now0, lpEscrow, rewardEscrow, ops, owner, amount, now);
    var s := Run(Genesis(now0, lpEscrow, rewardEscrow), ops).s;
    hide Run, Staked, Unstaked;
    TouchAcceptedIff(s, PositionOrNew(s, owner), now);
    if Touch(s, PositionOrNew(s, owner), now).Ok? {
      TouchMovesNoStake(s, owner, now);
    }
    hide Touch, CreditsFit;
  }

  /** What a farm owes the position with the credits of an update at `now`: paid by the next claim. */
  function Due(s: State, pos: Position, i: nat, now: nat): nat
    requires i < |s.farms| && |UpdateIndexes(s, now).farms| == |s.farms|
  {
    var seen := TrackerAt(pos, i).lastSeen;
    var index := UpdateIndexes(s, now).farms[i].index;
    if index < seen then TrackerAt(pos, i).claimable
    else SatAdd(TrackerAt(pos, i).claimable, ((index - seen) * pos.staked) / ONE)
  }

  /** A claim is accepted exactly when the account has room, the credits fit, and the escrow holds the amount due. */
  lemma ClaimAcceptedIff(s: State, owner: Pubkey, mint: Pubkey, now: nat)
    requires owner in s.positions
    ensures |UpdateIndexes(s, now).farms| == |s.farms|
    ensures var pos, i := s.positions[owner], FarmIndex(s.farms, mint);
            Claim(s, owner, mint, now).Ok?
            <==> && |s.farms| <= pos.capacity && CreditsFit(s, pos, now)
                 && i < |s.farms| && 0 < Due(s, pos, i, now) <= Balance(s.rewardEscrow, mint)
  {
    UpdateKeepsCount(s, now);
    var pos, i := s.positions[owner], FarmIndex(s.farms, mint);
    TouchAcceptedIff(s, pos, now);
    UpdateKeepsMints(s, now, mint);
    if Touch(s, pos, now).Ok? && i < |s.farms| {
      DueIsSettled(s, pos, i, now);
      hide CreditsFit, UpdateIndexes, SettledTracker, Due;
    } else {
      hide CreditsFit, UpdateIndexes, SettledTracker;
    }
  }

  lemma UpdateKeepsMints(s: State, now: nat, mint: Pubkey)
    ensures FarmIndex(UpdateIndexes(s, now).farms, mint) == FarmIndex(s.farms, mint)
    ensures UpdateIndexes(s, now).rewardEscrow == s.rewardEscrow
  {
    hide FromRatio, Emission;
    var f, g := s.farms, UpdateIndexes(s, now).farms;
    assert forall j :: 0 <= j < |f| ==> (f[j].mint == mint <==> g[j].mint == mint);
  }

  lemma DueIsSettled(s: State, pos: Position, i: nat, now: nat)
    requires i < |s.farms|
    ensures |UpdateIndexes(s, now).farms| == |s.farms|
    ensures SettledTracker(UpdateIndexes(s, now).farms[i], TrackerAt(pos, i), pos.staked).claimable
         == Due(s, pos, i, now)
  {
    UpdateKeepsCount(s, now);
    var seen, index := TrackerAt(pos, i).lastSeen, UpdateIndexes(s, now).farms[i].index;
    if index >= seen {
      FloorMulNatural(index - seen, pos.staked);
      DivAtLeast((index - seen) * pos.staked, ONE, 0);
    }
    hide UpdateIndexes, Floor, Mul;
  }
}
