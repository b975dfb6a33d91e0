/** What a roll or a reallocation needs to be accepted, and what each allocation holds after any run of them. */
module RollBooks {
  import opened Foundations
  import opened RollDelegation
  import opened RollTheorems

  // ---------- What is accepted ----------

  /** What an allocation still holds once the one rolled from is emptied. */
  function Remaining(allocs: seq<Allocation>, from: nat, i: nat): nat
    requires i < |allocs|
  {
    if i == from then 0 else allocs[i].deployedBase
  }

  /** The market rolled from has matured. */
  predicate Matured(env: RollEnv) {
    env.fromExpiry <= env.unixTime
  }

  /**
   A roll is accepted exactly when the delegation passes, both indexes name the markets passed, the old market has
   matured, the LP held covers the positive amount deployed in it, the least return asked for meets the floor and
   the return meets that, and the new allocation's cap holds it.
   */
  lemma RollAcceptedIff(hash: seq<Byte> -> Key, d: Delegation, vault: Key, allocs: seq<Allocation>, from: nat, to: nat,
                        minBaseOut: nat, env: RollEnv)
    ensures CrankRoll(hash, d, vault, allocs, from, to, minBaseOut, env).Ok?
            <==> && Validate(hash, d, vault, allocs, env.slot).Ok?
                 && from < |allocs| && allocs[from].market == env.fromMarket
                 && to < |allocs| && allocs[to].market == env.toMarket
                 && Matured(env)
                 && 0 < allocs[from].deployedBase <= env.lpHeld
                 && SlippageFloor(allocs[from].deployedBase, d.maxSlippageBps) <= minBaseOut
                 && minBaseOut <= env.escrowAfter - env.escrowBefore
                 && Remaining(allocs, from, to) + env.escrowAfter - env.escrowBefore <= allocs[to].capBase
  {
    hide Validate, SlippageFloor;
  }

  /** A delegation that signed an unchanged list and has not expired is all the permission a roll needs. */
  lemma SignedRollAcceptedIff(hash: seq<Byte> -> Key, d: Delegation, vault: Key, signed: seq<Allocation>,
                              allocs: seq<Allocation>, from: nat, to: nat, minBaseOut: nat, env: RollEnv)
    requires d.vault == vault && d.allocationsHash == HashAllocations(hash, signed) && SameList(signed, allocs)
    requires from < |allocs| && allocs[from].market == env.fromMarket
    requires to < |allocs| && allocs[to].market == env.toMarket
    requires SlippageFloor(allocs[from].deployedBase, d.maxSlippageBps) <= minBaseOut
                                                                        <= env.escrowAfter - env.escrowBefore
    requires Remaining(allocs, from, to) + env.escrowAfter - env.escrowBefore <= allocs[to].capBase
    ensures CrankRoll(hash, d, vault, allocs, from, to, minBaseOut, env).Ok?
            <==> env.slot < d.expiresAtSlot && Matured(env) && 0 < allocs[from].deployedBase <= env.lpHeld
  {
    ValidatesIff(hash, d, vault, signed, allocs, env.slot);
    RollAcceptedIff(hash, d, vault, allocs, from, to, minBaseOut, env);
    hide CrankRoll, Validate, SlippageFloor, Preimage, SameList;
  }

  lemma ReallocationsAcceptedIff(allocs: seq<Allocation>, i: nat, market: Key, base: nat)
    ensures ReallocateTo(allocs, i, market, base).Ok?
            <==> base > 0 && i < |allocs| && allocs[i].market == market
                 && allocs[i].deployedBase + base <= allocs[i].capBase
    ensures ReallocateFrom(allocs, i, market, base).Ok? <==> i < |allocs| && allocs[i].market == market
  {
  }

  // ---------- No market is left early ----------

  /** Every accepted roll of a run leaves a market that has matured, the one its allocation names. */
  ghost predicate OnlyMaturedLeft(hash: seq<Byte> -> Key, vault: Key, allocs: seq<Allocation>, ops: seq<Op>)
    decreases |ops|
  {
    ops != [] ==>
      && (ops[0].RollOp? && Apply(hash, vault, allocs, ops[0]).Ok? ==>
            Matured(ops[0].env) && ops[0].from < |allocs| && allocs[ops[0].from].market == ops[0].env.fromMarket)
      && OnlyMaturedLeft(hash, vault, Step(hash, vault, allocs, ops[0]), ops[1..])
  }

  lemma {:induction false} NoMarketLeftEarly(hash: seq<Byte> -> Key, vault: Key, allocs: seq<Allocation>, ops: seq<Op>)
    ensures OnlyMaturedLeft(hash, vault, allocs, ops)
    decreases |ops|
  {
    if ops != [] {
      if ops[0].RollOp? {
        var op := ops[0];
        RollAcceptedIff(hash, op.d, vault, allocs, op.from, op.to, op.minBaseOut, op.env);
      }
      hide CrankRoll, Step;
      NoMarketLeftEarly(hash, vault, Step(hash, vault, allocs, ops[0]), ops[1..]);
    }
  }

  // ---------- What each allocation holds ----------

  /** The base an accepted operation brings to one allocation. */
  function Inflow(hash: seq<Byte> -> Key, vault: Key, allocs: seq<Allocation>, op: Op, i: nat): int {
    if Apply(hash, vault, allocs, op).Err? then 0
    else
      match op
      case ToOp(j, _, baseIn) => if j == i then baseIn else 0
      case FromOp(_, _, _) => 0
      case RollOp(_, _, to, _, env) => if to == i then env.escrowAfter - env.escrowBefore else 0
  }

  /** The base it takes away: what is reported, as far as recorded, or in a roll all that is recorded. */
  function Outflow(hash: seq<Byte> -> Key, vault: Key, allocs: seq<Allocation>, op: Op, i: nat): int
    requires i < |allocs|
  {
    if Apply(hash, vault, allocs, op).Err? then 0
    else
      match op
      case ToOp(_, _, _) => 0
      case FromOp(j, _, baseOut) => if j == i then Min(baseOut, allocs[i].deployedBase) else 0
      case RollOp(_, from, _, _, _) => if from == i then allocs[i].deployedBase else 0
  }

  ghost function TotalIn(hash: seq<Byte> -> Key, vault: Key, allocs: seq<Allocation>, ops: seq<Op>, i: nat): int
    decreases |ops|
  {
    if ops == [] then 0
    else Inflow(hash, vault, allocs, ops[0], i) + TotalIn(hash, vault, Step(hash, vault, allocs, ops[0]), ops[1..], i)
  }

  ghost function TotalOut(hash: seq<Byte> -> Key, vault: Key, allocs: seq<Allocation>, ops: seq<Op>, i: nat): int
    requires i < |allocs|
    decreases |ops|
  {
    if ops == [] then 0
    else
      StepKeepsTerms(hash, vault, allocs, ops[0]);
      Outflow(hash, vault, allocs, ops[0], i)
      + TotalOut(hash, vault, Step(hash, vault, allocs, ops[0]), ops[1..], i)
  }

  lemma StepBooked(hash: seq<Byte> -> Key, vault: Key, allocs: seq<Allocation>, op: Op, i: nat)
    requires i < |allocs|
    ensures |Step(hash, vault, allocs, op)| == |allocs|
    ensures Step(hash, vault, allocs, op)[i].deployedBase
         == allocs[i].deployedBase + Inflow(hash, vault, allocs, op, i) - Outflow(hash, vault, allocs, op, i)
  {
    hide Validate, SlippageFloor;
  }

  /** Over any run each allocation holds what it held, plus what was brought to it, less what was taken from it. */
  lemma {:induction false} RunBooked(hash: seq<Byte> -> Key, vault: Key, allocs: seq<Allocation>, ops: seq<Op>, i: nat)
    requires i < |allocs|
    ensures |Run(hash, vault, allocs, ops)| == |allocs|
    ensures Run(hash, vault, allocs, ops)[i].deployedBase
         == allocs[i].deployedBase + TotalIn(hash, vault, allocs, ops, i) - TotalOut(hash, vault, allocs, ops, i)
    decreases |ops|
  {
    if ops != [] {
      StepBooked(hash, vault, allocs, ops[0], i);
      hide Step, Inflow, Outflow;
      RunBooked(hash, vault, Step(hash, vault, allocs, ops[0]), ops[1..], i);
    }
  }
}
