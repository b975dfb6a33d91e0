/** What the rewards program guarantees over whole runs. */
module RewardsTheorems {
  import opened Foundations
  import opened MapSums
  import ShareSums
  import opened Numbers
  import opened Rewards
  import opened FarmLedger
  import opened RewardsLedger

  ghost function Run(w: World, ops: seq<Op>): (r: World)
    requires |w.hist| == |w.s.farms|
    ensures |r.hist| == |r.s.farms|
    decreases |ops|
  {
    if ops == [] then w
    else
      StepLength(w, ops[0]);
      Run(Step(w, ops[0]), ops[1..])
  }

  lemma StepLength(w: World, op: Op)
    requires |w.hist| == |w.s.farms|
    ensures |Step(w, op).hist| == |Step(w, op).s.farms|
  {
    hide Touch, Touched;
    if Apply(w.s, op).Ok? {
      if op.StakeOp? || op.UnstakeOp? || op.ClaimOp? {
        TouchLength(w.s, PositionOrNew(w.s, op.owner), op);
      }
    }
  }

  lemma TouchLength(s: State, pos: Position, op: Op)
    requires (op.StakeOp? || op.UnstakeOp? || op.ClaimOp?) && Apply(s, op).Ok?
    ensures |Apply(s, op).value.farms| == |s.farms|
  {
    hide Earned, Accrued;
  }

  /** A freshly initialised farm state; the escrow accounts may already hold tokens. */
  function Genesis(now: nat, lpEscrow: nat, rewardEscrow: map<Pubkey, nat>): World {
    World(State(0, now, [], map[], lpEscrow, rewardEscrow), [])
  }

  lemma {:induction false} RunHolds(w: World, ops: seq<Op>)
    requires Inv(w)
    ensures Inv(Run(w, ops))
    decreases |ops|
  {
    if ops != [] {
      StepHolds(w, ops[0]);
      hide Inv, Step;
      RunHolds(Step(w, ops[0]), ops[1..]);
    }
  }

  lemma GenesisHolds(now: nat, lpEscrow: nat, rewardEscrow: map<Pubkey, nat>)
    ensures Inv(Genesis(now, lpEscrow, rewardEscrow))
  {
    assert StakesOf(Genesis(now, lpEscrow, rewardEscrow).s) == map[];
  }

  /**
   In every run, for every farm: what was claimed, what is claimable and what is pending never exceeds
   what the farm emitted, and all that rounding ever withholds is less than one token per settlement
   plus 1e-12 of the total stake per accrual (plus what a saturated credit dropped).
   */
  lemma NeverOverDistributed(now: nat, lpEscrow: nat, rewardEscrow: map<Pubkey, nat>, ops: seq<Op>, i: nat)
    requires i < |Run(Genesis(now, lpEscrow, rewardEscrow), ops).hist|
    ensures var w := Run(Genesis(now, lpEscrow, rewardEscrow), ops);
            var t := w.hist[i].totals;
            var owed := Sum(OwedAll(w.s.farms[i], AccountsOf(w.s, w.hist[i], i)));
            && ONE * t.claimed + owed <= ONE * t.emitted
            && ONE * t.emitted - (ONE * t.claimed + owed) <= ONE * (t.settlements + t.forfeited) + t.dust
  {
    GenesisHolds(now, lpEscrow, rewardEscrow);
    RunHolds(Genesis(now, lpEscrow, rewardEscrow), ops);
    assert FarmHolds(Run(Genesis(now, lpEscrow, rewardEscrow), ops), i);
  }

  /** In every run the lazy index refines the exact pro-rata ledger, position by position. */
  lemma LazyRefinesExact(now: nat, lpEscrow: nat, rewardEscrow: map<Pubkey, nat>, ops: seq<Op>, i: nat, u: Pubkey)
    requires var w := Run(Genesis(now, lpEscrow, rewardEscrow), ops);
             i < |w.hist| && u in w.s.positions
    ensures var w := Run(Genesis(now, lpEscrow, rewardEscrow), ops);
            var a := AccountsOf(w.s, w.hist[i], i)[u];
            Lazy(w.s.farms[i], a) <= a.entry.exact <= Lazy(w.s.farms[i], a) + a.entry.tolerance
  {
    GenesisHolds(now, lpEscrow, rewardEscrow);
    RunHolds(Genesis(now, lpEscrow, rewardEscrow), ops);
    var w := Run(Genesis(now, lpEscrow, rewardEscrow), ops);
    assert FarmHolds(w, i) && u in AccountsOf(w.s, w.hist[i], i);
  }

  /** In every run the exact shares of all positions add up to exactly what the farm emitted. */
  lemma ExactSharesAreComplete(now: nat, lpEscrow: nat, rewardEscrow: map<Pubkey, nat>, ops: seq<Op>, i: nat)
    requires i < |Run(Genesis(now, lpEscrow, rewardEscrow), ops).hist|
    ensures var w := Run(Genesis(now, lpEscrow, rewardEscrow), ops);
            ShareSums.Sum(Exacts(AccountsOf(w.s, w.hist[i], i))) == w.hist[i].totals.emitted as real
  {
    GenesisHolds(now, lpEscrow, rewardEscrow);
    RunHolds(Genesis(now, lpEscrow, rewardEscrow), ops);
    assert FarmHolds(Run(Genesis(now, lpEscrow, rewardEscrow), ops), i);
  }

  // ---------- What a farm emits ----------

  /**
   `add_farm` does not advance the indexes, so a new farm's first update pays for every second since the
   last one, those before the farm was created included; it pays for the farm's own time alone exactly when
   nothing is paid per second, an update fell on its creation, or it was over by the last update.
   */
  lemma NewFarmPaidFromLastUpdate(w: World, mint: Pubkey, rate: nat, expiry: nat, created: nat, now: nat)
    requires Inv(w) && w.s.totalStaked > 0 && AddFarm(w.s, mint, rate, expiry).Ok?
    requires w.s.lastTs <= created <= now
    ensures var v := Step(w, AddFarmOp(mint, rate, expiry));
            && |v.hist| == |w.hist| + 1 == |v.s.farms|
            && var emitted := Advance(v, now).hist[|w.hist|].totals.emitted;
            && emitted == rate * SatSub(Min(expiry, now), w.s.lastTs)
            && emitted == rate * SatSub(Min(expiry, now), created) + rate * SatSub(Min(expiry, created), w.s.lastTs)
            && (emitted == rate * SatSub(Min(expiry, now), created)
                <==> rate == 0 || created == w.s.lastTs || expiry <= w.s.lastTs)
  {
    hide FarmHolds, FromRatio;
    Distribute(rate, SatSub(Min(expiry, now), created), SatSub(Min(expiry, created), w.s.lastTs));
  }

  /**
   A farm added at time 8, two seconds before the next handler call, emits for ten: a stake at time 0 opens
   the pool, and the new farm with a rate of 5 has emitted 50 by time 10 where 10 were due.
   */
  lemma NewFarmPaidBeforeCreation(v: World)
    requires v == Run(Genesis(0, 0, map[]), [StakeOp(1, 1, 0), AddFarmOp(7, 5, 100), StakeOp(2, 1, 10)])
    ensures |v.hist| == |v.s.farms| == 1 && v.s.lastTs == 10
    ensures v.hist[0].totals.emitted == 50 && 5 * SatSub(Min(100, 10), 8) == 10
  {
    var g := Genesis(0, 0, map[]);
    FirstStake(g);
    FirstFarm(Step(g, StakeOp(1, 1, 0)));
    var w := Step(Step(g, StakeOp(1, 1, 0)), AddFarmOp(7, 5, 100));
    SecondStake(w);
    assert v == Step(w, StakeOp(2, 1, 10)) by {
      hide Step, Genesis;
    }
    hide Step, Genesis, Run;
  }

  lemma FirstStake(g: World)
    requires g == Genesis(0, 0, map[])
    ensures Step(g, StakeOp(1, 1, 0)) == World(State(1, 0, [], map[1 := Position(1, [], 0)], 1, map[]), [])
  {
    var pos := Position(0, [], 0);
    assert SettledPosition([], pos) == pos;
    assert Touch(g.s, pos, 0) == Ok((g.s, pos));
    hide Touch, Advance;
  }

  lemma FirstFarm(w: World)
    requires w == World(State(1, 0, [], map[1 := Position(1, [], 0)], 1, map[]), [])
    ensures Step(w, AddFarmOp(7, 5, 100))
         == World(State(1, 0, [Farm(7, 5, 100, 0)], map[1 := Position(1, [], 0)], 1, map[]),
                  [History(NO_TOTALS, map[])])
  {
  }

  lemma SecondStake(w: World)
    requires w == World(State(1, 0, [Farm(7, 5, 100, 0)], map[1 := Position(1, [], 0)], 1, map[]),
                        [History(NO_TOTALS, map[])])
    ensures var v := Step(w, StakeOp(2, 1, 10));
            |v.hist| == |v.s.farms| == 1 && v.s.lastTs == 10 && v.hist[0].totals.emitted == 50
  {
    assert Apply(w.s, StakeOp(2, 1, 10)).Ok?;
    hide FromRatio, Share;
  }

  /** The clock an operation leaves behind: the one it reads, if it advances the indexes. */
  function ClockAfter(op: Op, last: nat): nat {
    match op
    case StakeOp(_, _, now) => now
    case UnstakeOp(_, _, now) => now
    case ClaimOp(_, _, now) => now
    case _ => last
  }

  ghost predicate ClockNeverBack(w: World, ops: seq<Op>)
    requires |w.hist| == |w.s.farms|
    decreases |ops|
  {
    ops == [] || (w.s.lastTs <= ClockAfter(ops[0], w.s.lastTs)
                  && |Step(w, ops[0]).hist| == |Step(w, ops[0]).s.farms|
                  && ClockNeverBack(Step(w, ops[0]), ops[1..]))
  }

  /** `v` follows `w` on one farm's stream, having emitted no more than its rate for the time between them. */
  ghost predicate StreamBounded(w: World, v: World, i: nat)
    requires |w.hist| == |w.s.farms| && |v.hist| == |v.s.farms| && i < |w.hist|
  {
    && i < |v.hist|
    && v.s.farms[i].rate == w.s.farms[i].rate && v.s.farms[i].expiry == w.s.farms[i].expiry
    && w.s.lastTs <= v.s.lastTs
    && v.hist[i].totals.emitted
       <= w.hist[i].totals.emitted + w.s.farms[i].rate * SatSub(Min(w.s.farms[i].expiry, v.s.lastTs), w.s.lastTs)
  }

  lemma TouchedStream(w: World, owner: Pubkey, now: nat, i: nat)
    requires |w.hist| == |w.s.farms| && i < |w.hist| && w.s.lastTs <= now
    ensures StreamBounded(w, Touched(w, owner, now), i)
  {
    hide FromRatio, Forfeit, Share, SettleEntry;
  }

  lemma TouchingStepStream(w: World, op: Op, i: nat)
    requires Inv(w) && |w.hist| == |w.s.farms| && i < |w.hist|
    requires Apply(w.s, op).Ok? && (op.StakeOp? || op.UnstakeOp? || op.ClaimOp?) && w.s.lastTs <= op.now
    ensures |Step(w, op).hist| == |Step(w, op).s.farms| && StreamBounded(w, Step(w, op), i)
  {
    hide Inv, Touch, Touched, Apply, FarmIndex, Balance;
    PrologueFirst(w.s, op);
    TouchedShape(w, op.owner, op.now);
    TouchedStream(w, op.owner, op.now, i);
  }

  lemma StepStream(w: World, op: Op, i: nat)
    requires Inv(w) && i < |w.hist| && w.s.lastTs <= ClockAfter(op, w.s.lastTs)
    ensures |Step(w, op).hist| == |Step(w, op).s.farms| && StreamBounded(w, Step(w, op), i)
  {
    if Apply(w.s, op).Ok? && (op.StakeOp? || op.UnstakeOp? || op.ClaimOp?) {
      TouchingStepStream(w, op, i);
    } else {
      hide Stake, Unstake, Claim;
    }
  }

  lemma StreamsJoin(w: World, v: World, x: World, i: nat)
    requires |w.hist| == |w.s.farms| && |v.hist| == |v.s.farms| && |x.hist| == |x.s.farms| && i < |w.hist|
    requires StreamBounded(w, v, i) && StreamBounded(v, x, i)
    ensures StreamBounded(w, x, i)
  {
    var rate, expiry := w.s.farms[i].rate, w.s.farms[i].expiry;
    var a, b := SatSub(Min(expiry, v.s.lastTs), w.s.lastTs), SatSub(Min(expiry, x.s.lastTs), v.s.lastTs);
    Distribute(rate, a, b);
    MulMono(a + b, SatSub(Min(expiry, x.s.lastTs), w.s.lastTs), rate);
  }

  /** On a clock that never goes back, a farm emits at most its rate for the time up to its expiry. */
  lemma {:induction false} EmissionBounded(w: World, ops: seq<Op>, i: nat)
    requires Inv(w) && i < |w.hist| && ClockNeverBack(w, ops)
    ensures StreamBounded(w, Run(w, ops), i)
    decreases |ops|
  {
    if ops != [] {
      StepStream(w, ops[0], i);
      StepHolds(w, ops[0]);
      hide Inv, Step, StreamBounded;
      EmissionBounded(Step(w, ops[0]), ops[1..], i);
      StreamsJoin(w, Step(w, ops[0]), Run(Step(w, ops[0]), ops[1..]), i);
    }
  }

  // ---------- Stakes can always be withdrawn ----------

  /** `total_staked` is the sum of all stakes, so nobody's unstake saturates or finds the escrow short. */
  lemma UnstakeAlwaysPayable(now0: nat, lpEscrow: nat, rewardEscrow: map<Pubkey, nat>, ops: seq<Op>, owner: Pubkey,
                             amount: nat, now: nat)
    ensures var s := Run(Genesis(now0, lpEscrow, rewardEscrow), ops).s;
            && s.totalStaked == Sum(StakesOf(s))
            && Unstake(s, owner, amount, now) != Err(TransferFailed)
            && (Unstake(s, owner, amount, now).Ok? ==>
                  Unstake(s, owner, amount, now).value.totalStaked == s.totalStaked - amount)
  {
    GenesisHolds(now0, lpEscrow, rewardEscrow);
    RunHolds(Genesis(now0, lpEscrow, rewardEscrow), ops);
    var w := Run(Genesis(now0, lpEscrow, rewardEscrow), ops);
    if owner in w.s.positions {
      StakeCovered(w, owner);
    }
    hide Run, FarmHolds, Accrued, Earned;
  }

  // ---------- Covered emissions can always be claimed ----------

  /** Every farm's escrow holds at least what the farm has emitted and not yet paid. */
  ghost predicate Covered(w: World)
    requires |w.hist| == |w.s.farms|
  {
    forall i :: 0 <= i < |w.hist| ==>
      w.hist[i].totals.emitted <= Balance(w.s.rewardEscrow, w.s.farms[i].mint) + w.hist[i].totals.claimed
  }

  ghost predicate DistinctMints(farms: seq<Farm>) {
    forall i, j :: 0 <= i < j < |farms| ==> farms[i].mint != farms[j].mint
  }

  lemma CreditCovered(w: World, i: nat, u: Pubkey)
    requires Inv(w) && i < |w.hist| && u in w.s.positions
    ensures TrackerAt(w.s.positions[u], i).claimable + w.hist[i].totals.claimed <= w.hist[i].totals.emitted
  {
    assert FarmHolds(w, i);
    var acc := AccountsOf(w.s, w.hist[i], i);
    FarmCreditCovered(w.s.farms[i], w.hist[i].totals, acc, u);
  }

  lemma FarmCreditCovered(farm: Farm, t: Totals, acc: Accounts, u: Pubkey)
    requires FarmInv(farm, t, acc) && u in acc
    ensures acc[u].tracker.claimable + t.claimed <= t.emitted
  {
    forall v | v in acc ensures OwedAll(farm, acc)[v] >= ONE * acc[v].tracker.claimable {
      assert Faithful(farm, acc[v]);
      OwedCoversCredit(farm, acc[v]);
    }
    hide Owed, Faithful;
    SumCovers(OwedAll(farm, acc), u);
  }

  lemma OwedCoversCredit(farm: Farm, a: Account)
    requires a.tracker.lastSeen <= farm.index
    ensures Owed(farm, a) >= ONE * a.tracker.claimable
  {
  }

  lemma TouchedCovered(w: World, owner: Pubkey, now: nat)
    requires |w.hist| == |w.s.farms| && Covered(Advance(w, now)) && DistinctMints(w.s.farms)
    ensures Covered(Touched(w, owner, now)) && DistinctMints(Touched(w, owner, now).s.farms)
  {
    hide FromRatio, Emission, Forfeit, Share, SettleEntry;
    var a, v := Advance(w, now), Touched(w, owner, now);
    forall i | 0 <= i < |v.hist|
      ensures v.s.farms[i].mint == a.s.farms[i].mint == w.s.farms[i].mint
      ensures v.hist[i].totals.emitted == a.hist[i].totals.emitted
      ensures v.hist[i].totals.claimed == a.hist[i].totals.claimed
    {
    }
  }

  lemma PayCovered(w: World, owner: Pubkey, i: nat, due: nat, s': State)
    requires |w.hist| == |w.s.farms| && Covered(w) && DistinctMints(w.s.farms) && i < |w.hist|
    requires s'.farms == w.s.farms
    requires due <= Balance(w.s.rewardEscrow, w.s.farms[i].mint)
    requires var mint := w.s.farms[i].mint;
             s'.rewardEscrow == w.s.rewardEscrow[mint := Balance(w.s.rewardEscrow, mint) - due]
    ensures Covered(World(s', w.hist[i := PayHistory(w.hist[i], owner, due)]))
  {
    var v := World(s', w.hist[i := PayHistory(w.hist[i], owner, due)]);
    forall j | 0 <= j < |v.hist|
      ensures v.hist[j].totals.emitted <= Balance(v.s.rewardEscrow, v.s.farms[j].mint) + v.hist[j].totals.claimed
    {
      if j != i {
        assert w.s.farms[j].mint != w.s.farms[i].mint;
      }
    }
  }

  /** Advancing to the moment of the last update emits nothing. */
  lemma AdvanceAgain(w: World, now: nat)
    requires |w.hist| == |w.s.farms| && w.s.lastTs == now && Covered(w)
    ensures Covered(Advance(w, now))
  {
    hide FromRatio, Emission;
    var a := Advance(w, now);
    forall i | 0 <= i < |a.hist| ensures a.hist[i] == w.hist[i] && a.s.farms[i] == w.s.farms[i] {
    }
  }

  lemma TouchedClock(w: World, owner: Pubkey, now: nat)
    requires |w.hist| == |w.s.farms|
    ensures Touched(w, owner, now).s.lastTs == now
  {
  }

  /** When the escrows cover what has been emitted by `now`, no claim at `now` finds its escrow short. */
  lemma CoveredClaimPays(w: World, op: Op)
    requires op.ClaimOp? && Inv(w) && DistinctMints(w.s.farms) && Covered(Advance(w, op.now))
    ensures Apply(w.s, op) != Err(TransferFailed)
  {
    var before := PositionOrNew(w.s, op.owner);
    if op.owner in w.s.positions && Touch(w.s, before, op.now).Ok? {
      TouchedShape(w, op.owner, op.now);
      TouchedCovered(w, op.owner, op.now);
      var (s1, pos) := Touch(w.s, before, op.now).value;
      var v, i := Touched(w, op.owner, op.now), FarmIndex(s1.farms, op.mint);
      hide Touched, Accrued, Earned;
      if i < |s1.farms| {
        CreditCovered(v, i, op.owner);
        hide Inv;
        assert TrackerAt(v.s.positions[op.owner], i) == pos.perFarm[i];
      }
    }
  }

  /** An accepted claim leaves the escrows covering what has been emitted. */
  lemma ClaimKeepsCovered(w: World, op: Op)
    requires op.ClaimOp? && Inv(w) && DistinctMints(w.s.farms) && Covered(Advance(w, op.now)) && Apply(w.s, op).Ok?
    ensures |Step(w, op).hist| == |Step(w, op).s.farms| && DistinctMints(Step(w, op).s.farms)
    ensures Covered(Advance(Step(w, op), op.now))
  {
    hide Inv, Touch, Touched, Apply, Advance;
    PrologueFirst(w.s, op);
    TouchedShape(w, op.owner, op.now);
    TouchedCovered(w, op.owner, op.now);
    TouchedClock(w, op.owner, op.now);
    var v, s' := Touched(w, op.owner, op.now), Apply(w.s, op).value;
    var i := FarmIndex(v.s.farms, op.mint);
    PayCovered(v, op.owner, i, v.s.positions[op.owner].perFarm[i].claimable, s');
    AdvanceAgain(Step(w, op), op.now);
  }

  /** No transaction of a run fails for want of escrowed tokens. */
  ghost predicate NeverShort(w: World, ops: seq<Op>)
    requires |w.hist| == |w.s.farms|
    decreases |ops|
  {
    ops == [] || (Apply(w.s, ops[0]) != Err(TransferFailed)
                  && |Step(w, ops[0]).hist| == |Step(w, ops[0]).s.farms|
                  && NeverShort(Step(w, ops[0]), ops[1..]))
  }

  /** If refills cover the emissions up to `now`, everyone can claim at `now`, in any order, any number of times. */
  lemma {:induction false} AllClaimsPaidInAnyOrder(w: World, claims: seq<Op>, now: nat)
    requires Inv(w) && DistinctMints(w.s.farms) && Covered(Advance(w, now))
    requires forall k :: 0 <= k < |claims| ==> claims[k].ClaimOp? && claims[k].now == now
    ensures NeverShort(w, claims)
    decreases |claims|
  {
    if claims != [] {
      CoveredClaimPays(w, claims[0]);
      StepHolds(w, claims[0]);
      if Apply(w.s, claims[0]).Ok? {
        ClaimKeepsCovered(w, claims[0]);
      }
      hide Apply, Advance, Covered;
      AllClaimsPaidInAnyOrder(Step(w, claims[0]), claims[1..], now);
    }
  }
}
