/** The reward escrows over whole runs: what each mint's account holds, and when it pays every claim. */
module RewardsEscrow {
  import opened Foundations
  import opened Numbers
  import opened Rewards
  import opened FarmLedger
  import opened RewardsLedger
  import opened RewardsTheorems

  /** What the farm of a mint has paid out, if the mint has one. */
  function ClaimedOf(w: World, mint: Pubkey): nat
    requires |w.hist| == |w.s.farms|
  {
    var i := FarmIndex(w.s.farms, mint);
    if i < |w.hist| then w.hist[i].totals.claimed else 0
  }

  /** What an operation pays into the escrow of a mint. */
  function RefillBy(s: State, op: Op, mint: Pubkey): nat {
    if op.RefillOp? && op.mint == mint && Apply(s, op).Ok? then op.amount else 0
  }

  /** What the refills of a run pay into the escrow of a mint. */
  ghost function Refilled(w: World, ops: seq<Op>, mint: Pubkey): nat
    requires |w.hist| == |w.s.farms|
    decreases |ops|
  {
    if ops == [] then 0
    else
      StepLength(w, ops[0]);
      RefillBy(w.s, ops[0], mint) + Refilled(Step(w, ops[0]), ops[1..], mint)
  }

  predicate SameMints(f: seq<Farm>, g: seq<Farm>) {
    |f| == |g| && forall i :: 0 <= i < |f| ==> f[i].mint == g[i].mint
  }

  lemma SameIndex(f: seq<Farm>, g: seq<Farm>, mint: Pubkey)
    requires SameMints(f, g)
    ensures FarmIndex(f, mint) == FarmIndex(g, mint)
    ensures DistinctMints(f) ==> DistinctMints(g)
  {
    assert forall i :: 0 <= i < |f| ==> (f[i].mint == mint <==> g[i].mint == mint);
  }

  /** With distinct mints every farm is found under its own. */
  lemma IndexOfFarm(farms: seq<Farm>, i: nat)
    requires DistinctMints(farms) && i < |farms|
    ensures FarmIndex(farms, farms[i].mint) == i
  {
    assert forall j :: 0 <= j < i ==> farms[j].mint != farms[i].mint;
  }

  // ---------- One operation ----------

  /** Advancing the indexes and settling a position moves no reward tokens. */
  lemma TouchMovesNothing(w: World, owner: Pubkey, now: nat)
    requires |w.hist| == |w.s.farms|
    ensures var v := Touched(w, owner, now);
            && SameMints(w.s.farms, v.s.farms) && v.s.rewardEscrow == w.s.rewardEscrow
            && forall i :: 0 <= i < |w.hist| ==> v.hist[i].totals.claimed == w.hist[i].totals.claimed
  {
    hide FromRatio, Emission, Forfeit, Share, SettleEntry;
  }

  /** The balance of a mint's escrow and what its farm has paid, together. */
  function Through(w: World, mint: Pubkey): nat
    requires |w.hist| == |w.s.farms|
  {
    Balance(w.s.rewardEscrow, mint) + ClaimedOf(w, mint)
  }

  lemma TouchedThrough(w: World, owner: Pubkey, now: nat, mint: Pubkey)
    requires |w.hist| == |w.s.farms| && DistinctMints(w.s.farms)
    ensures Through(Touched(w, owner, now), mint) == Through(w, mint) && DistinctMints(Touched(w, owner, now).s.farms)
  {
    TouchMovesNothing(w, owner, now);
    SameIndex(w.s.farms, Touched(w, owner, now).s.farms, mint);
    hide Touched;
  }

  lemma StakeThrough(w: World, op: Op, mint: Pubkey)
    requires Inv(w) && DistinctMints(w.s.farms) && (op.StakeOp? || op.UnstakeOp?) && Apply(w.s, op).Ok?
    ensures |Step(w, op).hist| == |Step(w, op).s.farms|
    ensures DistinctMints(Step(w, op).s.farms) && Through(Step(w, op), mint) == Through(w, mint)
  {
    hide Inv, Touch, Touched, Apply;
    PrologueFirst(w.s, op);
    TouchedShape(w, op.owner, op.now);
    TouchedThrough(w, op.owner, op.now, mint);
  }

  lemma ClaimThrough(w: World, op: Op, mint: Pubkey)
    requires Inv(w) && DistinctMints(w.s.farms) && op.ClaimOp? && Apply(w.s, op).Ok?
    ensures |Step(w, op).hist| == |Step(w, op).s.farms|
    ensures DistinctMints(Step(w, op).s.farms) && Through(Step(w, op), mint) == Through(w, mint)
  {
    hide Inv, Touch, Touched, Apply;
    PrologueFirst(w.s, op);
    TouchedShape(w, op.owner, op.now);
    TouchedThrough(w, op.owner, op.now, mint);
    var v := Touched(w, op.owner, op.now);
    var i, j := FarmIndex(v.s.farms, op.mint), FarmIndex(v.s.farms, mint);
    hide DistinctMints;
  }

  lemma AddFarmThrough(w: World, op: Op, mint: Pubkey)
    requires |w.hist| == |w.s.farms| && DistinctMints(w.s.farms) && op.AddFarmOp? && Apply(w.s, op).Ok?
    ensures |Step(w, op).hist| == |Step(w, op).s.farms|
    ensures DistinctMints(Step(w, op).s.farms) && Through(Step(w, op), mint) == Through(w, mint)
  {
    var f, g := w.s.farms, Step(w, op).s.farms;
    var i, j := FarmIndex(f, mint), FarmIndex(g, mint);
    assert forall k :: 0 <= k < |f| ==> g[k] == f[k];
    assert i < |f| ==> j == i;
  }

  /** No operation changes balance plus payouts of a mint but its refills, and none makes two farms share a mint. */
  lemma StepThrough(w: World, op: Op, mint: Pubkey)
    requires Inv(w) && DistinctMints(w.s.farms)
    ensures |Step(w, op).hist| == |Step(w, op).s.farms| && DistinctMints(Step(w, op).s.farms)
    ensures Through(Step(w, op), mint) == Through(w, mint) + RefillBy(w.s, op, mint)
  {
    StepLength(w, op);
    if Apply(w.s, op).Ok? {
      match op
      case StakeOp(_, _, _) => StakeThrough(w, op, mint);
      case UnstakeOp(_, _, _) => StakeThrough(w, op, mint);
      case ClaimOp(_, _, _) => ClaimThrough(w, op, mint);
      case AddFarmOp(_, _, _) => AddFarmThrough(w, op, mint);
      case RefillOp(_, _) => hide Inv, DistinctMints;
      case ReallocOp(_) => hide Inv, DistinctMints;
    }
  }

  // ---------- Runs ----------

  /** Over any run, what a mint's escrow holds and has paid is what it held and had paid, plus its refills. */
  lemma {:induction false} RunThrough(w: World, ops: seq<Op>, mint: Pubkey)
    requires Inv(w) && DistinctMints(w.s.farms)
    ensures DistinctMints(Run(w, ops).s.farms)
    ensures Through(Run(w, ops), mint) == Through(w, mint) + Refilled(w, ops, mint)
    decreases |ops|
  {
    if ops != [] {
      StepThrough(w, ops[0], mint);
      StepHolds(w, ops[0]);
      hide Inv, Step, Through, RefillBy, DistinctMints;
      RunThrough(Step(w, ops[0]), ops[1..], mint);
    }
  }

  /** From a new farm state: no two farms ever share a mint, and each escrow holds its refills less its payouts. */
  lemma EscrowBooks(now0: nat, lpEscrow: nat, rewardEscrow: map<Pubkey, nat>, ops: seq<Op>, mint: Pubkey)
    ensures var w := Run(Genesis(now0, lpEscrow, rewardEscrow), ops);
            && DistinctMints(w.s.farms)
            && Balance(w.s.rewardEscrow, mint) + ClaimedOf(w, mint)
               == Balance(rewardEscrow, mint) + Refilled(Genesis(now0, lpEscrow, rewardEscrow), ops, mint)
  {
    GenesisHolds(now0, lpEscrow, rewardEscrow);
    RunThrough(Genesis(now0, lpEscrow, rewardEscrow), ops, mint);
    hide Run, Refilled, Balance, Inv, DistinctMints;
  }

  /** What a farm's escrow was given, at first and by refills, is at least what the farm has emitted by `now`. */
  ghost predicate Funded(w0: World, ops: seq<Op>, now: nat, i: nat)
    requires |w0.hist| == |w0.s.farms| && i < |Run(w0, ops).hist|
  {
    var w := Run(w0, ops);
    var mint := w.s.farms[i].mint;
    Advance(w, now).hist[i].totals.emitted <= Balance(w0.s.rewardEscrow, mint) + Refilled(w0, ops, mint)
  }

  /** A farm so funded can pay what it has emitted and not yet paid. */
  lemma FundedCovers(w0: World, ops: seq<Op>, now: nat, i: nat)
    requires Inv(w0) && w0.s.farms == [] && i < |Run(w0, ops).hist|
    requires Funded(w0, ops, now, i)
    ensures var a := Advance(Run(w0, ops), now);
            a.hist[i].totals.emitted <= Balance(a.s.rewardEscrow, a.s.farms[i].mint) + a.hist[i].totals.claimed
  {
    var w := Run(w0, ops);
    RunThrough(w0, ops, w.s.farms[i].mint);
    IndexOfFarm(w.s.farms, i);
    hide Run, Refilled, Inv, DistinctMints, FromRatio, Emission, Share;
  }

  /**
   If each farm's escrow was given, at first and by refills, what the farm has emitted by `now`, then at
   `now` every staker can claim from every farm, in any order and any number of times: no claim of any
   sequence finds its escrow short.
   */
  lemma RefillsPayEveryClaim(
    now0: nat, lpEscrow: nat, rewardEscrow: map<Pubkey, nat>, ops: seq<Op>, claims: seq<Op>, now: nat)
    requires var w0 := Genesis(now0, lpEscrow, rewardEscrow);
             forall i :: 0 <= i < |Run(w0, ops).hist| ==> Funded(w0, ops, now, i)
    requires forall k :: 0 <= k < |claims| ==> claims[k].ClaimOp? && claims[k].now == now
    ensures NeverShort(Run(Genesis(now0, lpEscrow, rewardEscrow), ops), claims)
  {
    var w0 := Genesis(now0, lpEscrow, rewardEscrow);
    var w := Run(w0, ops);
    GenesisHolds(now0, lpEscrow, rewardEscrow);
    RunHolds(w0, ops);
    RunThrough(w0, ops, 0);
    var a := Advance(w, now);
    hide Run, Funded, Inv, DistinctMints, Advance;
    forall i | 0 <= i < |w.hist|
      ensures a.hist[i].totals.emitted <= Balance(a.s.rewardEscrow, a.s.farms[i].mint) + a.hist[i].totals.claimed
    {
      FundedCovers(w0, ops, now, i);
    }
    assert Covered(a);
    AllClaimsPaidInAnyOrder(w, claims, now);
  }
}
