/** What a signed delegation guarantees over any number of rolls. */
module RollTheorems {
  import opened Foundations
  import opened RealFacts
  import opened RollDelegation

  // ---------- The commitment says exactly market, weight and cap ----------

  predicate SameTerms(a: Allocation, b: Allocation) {
    a.market == b.market && a.weightBps == b.weightBps && a.capBase == b.capBase
  }

  /** The same allocations in the same order, up to what is deployed. */
  predicate SameList(a: seq<Allocation>, b: seq<Allocation>) {
    |a| == |b| && forall i :: 0 <= i < |a| ==> SameTerms(a[i], b[i])
  }

  function Pow256(k: nat): (p: nat)
    ensures p > 0
  {
    if k == 0 then 1 else 0x100 * Pow256(k - 1)
  }

  lemma {:induction false} LeBytesInjective(m: nat, n: nat, k: nat)
    requires m < Pow256(k) && n < Pow256(k) && LeBytes(m, k) == LeBytes(n, k)
    ensures m == n
  {
    if k > 0 {
      var s, t := LeBytes(m, k), LeBytes(n, k);
      assert s[0] == m % 0x100 && t[0] == n % 0x100;
      assert s[1..] == LeBytes(m / 0x100, k - 1) && t[1..] == LeBytes(n / 0x100, k - 1);
      LeBytesInjective(m / 0x100, n / 0x100, k - 1);
    }
  }

  lemma CommitSameTerms(a: Allocation, b: Allocation)
    ensures CommitBytes(a) == CommitBytes(b) <==> SameTerms(a, b)
  {
    if CommitBytes(a) == CommitBytes(b) {
      assert CommitBytes(a)[..32] == a.market && CommitBytes(b)[..32] == b.market;
      assert CommitBytes(a)[32..34] == LeBytes(a.weightBps, 2) && CommitBytes(b)[32..34] == LeBytes(b.weightBps, 2);
      assert CommitBytes(a)[34..] == LeBytes(a.capBase, 8) && CommitBytes(b)[34..] == LeBytes(b.capBase, 8);
      Widths();
      hide LeBytes, Pow256;
      LeBytesInjective(a.weightBps, b.weightBps, 2);
      LeBytesInjective(a.capBase, b.capBase, 8);
    }
  }

  lemma Widths()
    ensures Pow256(2) == 0x1_0000 && Pow256(8) == U64_MAX + 1
  {
    assert Pow256(4) == 0x1_0000_0000;
  }

  lemma {:induction false} PreimageLength(a: seq<Allocation>)
    ensures |Preimage(a)| == 42 * |a|
  {
    if a != [] {
      PreimageLength(a[1..]);
    }
  }

  /**
   The bytes hashed for two lists are the same exactly when the lists agree in order on market, weight
   and cap: the fixed width leaves no way to shift a field into its neighbour.
   */
  lemma {:induction false} PreimageSameList(a: seq<Allocation>, b: seq<Allocation>)
    ensures Preimage(a) == Preimage(b) <==> SameList(a, b)
  {
    PreimageLength(a);
    PreimageLength(b);
    if a != [] && b != [] && |a| == |b| {
      hide CommitBytes, SameTerms;
      CommitSameTerms(a[0], b[0]);
      PreimageSameList(a[1..], b[1..]);
      assert Preimage(a)[..42] == CommitBytes(a[0]) && Preimage(a)[42..] == Preimage(a[1..]);
      assert Preimage(b)[..42] == CommitBytes(b[0]) && Preimage(b)[42..] == Preimage(b[1..]);
      assert SameList(a, b) <==> SameTerms(a[0], b[0]) && SameList(a[1..], b[1..]) by {
        if SameTerms(a[0], b[0]) && SameList(a[1..], b[1..]) {
          forall i | 0 <= i < |a| ensures SameTerms(a[i], b[i]) {
            if i > 0 {
              assert a[i] == a[1..][i - 1] && b[i] == b[1..][i - 1];
            }
          }
        }
      }
    }
  }

  /** Two different inputs with one digest. */
  predicate Collision(hash: seq<Byte> -> Key, x: seq<Byte>, y: seq<Byte>) {
    x != y && hash(x) == hash(y)
  }

  /**
   A delegation signed over one list passes for another at a slot exactly when it names the vault, has
   not expired, and the lists agree on every term in order, or their commitments are a hash collision.
   */
  lemma ValidatesIff(hash: seq<Byte> -> Key, d: Delegation, vault: Key, signed: seq<Allocation>,
                     current: seq<Allocation>, slot: nat)
    requires d.allocationsHash == HashAllocations(hash, signed)
    ensures Validate(hash, d, vault, current, slot).Ok? <==>
            d.vault == vault && slot < d.expiresAtSlot
            && (SameList(signed, current) || Collision(hash, Preimage(signed), Preimage(current)))
  {
    PreimageSameList(signed, current);
    hide Preimage, SameList;
  }

  /**
   An accepted delegation allows at most ten percent, lives between a day and a hundred days, and passes from
   the slot it was made until it expires.
   */
  lemma CreatedDelegation(hash: seq<Byte> -> Key, vault: Key, user: Key, allocs: seq<Allocation>, maxSlippageBps: U16,
                          ttlSlots: U64, slot: U64, later: nat)
    ensures var r := CreateDelegation(hash, vault, user, allocs, maxSlippageBps, ttlSlots, slot);
            && (r.Ok? <==> maxSlippageBps <= MAX_SLIPPAGE_BPS && MIN_TTL_SLOTS <= ttlSlots <= MAX_TTL_SLOTS)
            && (r.Ok? ==>
                  && (Validate(hash, r.value, vault, allocs, later).Ok? <==> later < Min(slot + ttlSlots, U64_MAX))
                  && (slot + MIN_TTL_SLOTS <= U64_MAX ==> Validate(hash, r.value, vault, allocs, slot).Ok?))
  {
    hide HashAllocations;
  }

  // ---------- Target weights ----------

  /** What an allocation's weight makes of the vault's assets. */
  function Target(a: Allocation, assets: nat): nat {
    a.weightBps * assets / 10_000
  }

  function SumTargets(allocs: seq<Allocation>, assets: nat): nat {
    if allocs == [] then 0 else Target(allocs[0], assets) + SumTargets(allocs[1..], assets)
  }

  lemma {:induction false} TargetsBound(allocs: seq<Allocation>, assets: nat)
    ensures 10_000 * SumTargets(allocs, assets) <= SumWeights(allocs) * assets
    ensures SumTargets(allocs, 10_000) == SumWeights(allocs)
  {
    if allocs != [] {
      TargetsBound(allocs[1..], assets);
      DivBounds(allocs[0].weightBps * assets, 10_000);
      Distribute(assets, allocs[0].weightBps, SumWeights(allocs[1..]));
      DivIs(allocs[0].weightBps * 10_000, 10_000, allocs[0].weightBps);
    }
  }

  /** Target weights are accepted exactly when, whatever the assets, the targets together never exceed them. */
  lemma WeightsAcceptedIff(allocs: seq<Allocation>)
    ensures SetAllocations(allocs).Ok? <==> forall assets: nat :: SumTargets(allocs, assets) <= assets
    ensures SetAllocations(allocs).Ok? ==> SetAllocations(allocs).value == allocs
  {
    hide SumTargets, SumWeights;
    if SetAllocations(allocs).Ok? {
      forall assets: nat ensures SumTargets(allocs, assets) <= assets {
        TargetsBound(allocs, assets);
        MulMono(SumWeights(allocs), 10_000, assets);
      }
    } else {
      var whole: nat := 10_000;
      TargetsBound(allocs, whole);
      assert SumTargets(allocs, whole) > whole;
    }
  }

  // ---------- Terms and caps over runs ----------

  /** No allocation holds more than its cap. */
  predicate WithinCaps(allocs: seq<Allocation>) {
    forall i :: 0 <= i < |allocs| ==> allocs[i].deployedBase <= allocs[i].capBase
  }

  lemma StepKeepsTerms(hash: seq<Byte> -> Key, vault: Key, allocs: seq<Allocation>, op: Op)
    ensures SameList(allocs, Step(hash, vault, allocs, op))
    ensures WithinCaps(allocs) ==> WithinCaps(Step(hash, vault, allocs, op))
  {
    hide Validate, SlippageFloor;
  }

  lemma SameListJoins(a: seq<Allocation>, b: seq<Allocation>, c: seq<Allocation>)
    requires SameList(a, b) && SameList(b, c)
    ensures SameList(a, c)
  {
    forall i | 0 <= i < |a| ensures SameTerms(a[i], c[i]) {
      assert SameTerms(a[i], b[i]) && SameTerms(b[i], c[i]);
    }
  }

  /** Reallocations and rolls never change the signed terms, and keep every allocation within its cap. */
  lemma {:induction false} RunKeepsTerms(hash: seq<Byte> -> Key, vault: Key, allocs: seq<Allocation>, ops: seq<Op>)
    ensures SameList(allocs, Run(hash, vault, allocs, ops))
    ensures WithinCaps(allocs) ==> WithinCaps(Run(hash, vault, allocs, ops))
    decreases |ops|
  {
    if ops != [] {
      StepKeepsTerms(hash, vault, allocs, ops[0]);
      hide Step, WithinCaps, SameList;
      RunKeepsTerms(hash, vault, Step(hash, vault, allocs, ops[0]), ops[1..]);
      SameListJoins(allocs, Step(hash, vault, allocs, ops[0]), Run(hash, vault, allocs, ops));
    } else {
      hide WithinCaps, Step;
    }
  }

  /** So a delegation that passes before a run of them passes after it, until it expires. */
  lemma DelegationOutlivesRolls(hash: seq<Byte> -> Key, d: Delegation, vault: Key, allocs: seq<Allocation>,
                                ops: seq<Op>, slot: nat, later: nat)
    requires Validate(hash, d, vault, allocs, slot).Ok? && later < d.expiresAtSlot
    ensures Validate(hash, d, vault, Run(hash, vault, allocs, ops), later).Ok?
  {
    RunKeepsTerms(hash, vault, allocs, ops);
    PreimageSameList(allocs, Run(hash, vault, allocs, ops));
    hide Run, SameList, Preimage;
  }

  // ---------- Value over runs of rolls ----------

  /** The signed slippage bounds what a roll returns, up to rounding, exactly while the product stays within u64. */
  lemma SlippageHonouredIff(deployed: nat, maxSlippageBps: nat)
    requires maxSlippageBps <= 10_000
    ensures SlippageFloor(deployed, maxSlippageBps) == deployed * (10_000 - maxSlippageBps) / 10_000
       <==> deployed * (10_000 - maxSlippageBps) < (U64_MAX / 10_000 + 1) * 10_000
  {
    var n := deployed * (10_000 - maxSlippageBps);
    assert SatSub(10_000, maxSlippageBps) == 10_000 - maxSlippageBps;
    assert SlippageFloor(deployed, maxSlippageBps) == Min(n, U64_MAX) / 10_000;
    FloorSaturates(n);
  }

  lemma FloorSaturates(n: nat)
    ensures Min(n, U64_MAX) / 10_000 == n / 10_000 <==> n < (U64_MAX / 10_000 + 1) * 10_000
  {
  }

  /**
   Beyond it a roll may lose nearly everything: on an allocation holding the largest u64, under a
   delegation that signed ten percent, a roll that returns a ten-thousandth of it is accepted.
   */
  lemma SaturatedRollAccepted(hash: seq<Byte> -> Key, k: Key, allocs: seq<Allocation>, d: Delegation, env: RollEnv)
    requires allocs == [Allocation(k, 10_000, U64_MAX, U64_MAX)]
    requires d == CreateDelegation(hash, k, k, allocs, 1_000, MIN_TTL_SLOTS, 0).value
    requires env == RollEnv(0, 0, k, k, 0, U64_MAX, 0, U64_MAX / 10_000)
    ensures CrankRoll(hash, d, k, allocs, 0, 0, U64_MAX / 10_000, env)
         == Ok([Allocation(k, 10_000, U64_MAX, U64_MAX / 10_000)])
  {
    assert SlippageFloor(U64_MAX, 1_000) == U64_MAX / 10_000;
    hide HashAllocations, SlippageFloor;
    assert Validate(hash, d, k, allocs, 0).Ok?;
    var back := Allocation(k, 10_000, U64_MAX, U64_MAX / 10_000);
    assert allocs[0 := Allocation(k, 10_000, U64_MAX, 0)][0 := back] == [back];
  }

  function Deployed(allocs: seq<Allocation>): nat {
    if allocs == [] then 0 else allocs[0].deployedBase + Deployed(allocs[1..])
  }

  lemma {:induction false} DeployedPut(allocs: seq<Allocation>, i: nat, a: Allocation)
    requires i < |allocs|
    ensures Deployed(allocs[i := a]) == Deployed(allocs) - allocs[i].deployedBase + a.deployedBase
    ensures allocs[i].deployedBase <= Deployed(allocs)
  {
    if i == 0 {
      assert allocs[i := a][1..] == allocs[1..];
    } else {
      assert allocs[i := a][1..] == allocs[1..][i - 1 := a];
      DeployedPut(allocs[1..], i - 1, a);
    }
  }

  /** Every cap and every deployed amount times ten thousand fits u64. */
  predicate Fits(allocs: seq<Allocation>) {
    forall i :: 0 <= i < |allocs| ==>
      allocs[i].deployedBase * 10_000 <= U64_MAX && allocs[i].capBase * 10_000 <= U64_MAX
  }

  /** An accepted roll empties one allocation, then adds what came back to another, or the same one. */
  lemma RollShape(hash: seq<Byte> -> Key, d: Delegation, vault: Key, allocs: seq<Allocation>, from: nat, to: nat,
                  minBaseOut: nat, env: RollEnv)
    returns (emptied: seq<Allocation>, next: U64)
    requires CrankRoll(hash, d, vault, allocs, from, to, minBaseOut, env).Ok?
    ensures from < |allocs| && to < |allocs| && emptied == allocs[from := allocs[from].(deployedBase := 0)]
    ensures next == emptied[to].deployedBase + (env.escrowAfter - env.escrowBefore) && next <= emptied[to].capBase
    ensures CrankRoll(hash, d, vault, allocs, from, to, minBaseOut, env).value
            == emptied[to := emptied[to].(deployedBase := next)]
    ensures SlippageFloor(allocs[from].deployedBase, d.maxSlippageBps) <= env.escrowAfter - env.escrowBefore
  {
    hide Validate, SlippageFloor;
    emptied := allocs[from := allocs[from].(deployedBase := 0)];
    next := emptied[to].deployedBase + (env.escrowAfter - env.escrowBefore);
  }

  lemma RollChangesDeployed(hash: seq<Byte> -> Key, d: Delegation, vault: Key, allocs: seq<Allocation>, from: nat,
                            to: nat, minBaseOut: nat, env: RollEnv)
    requires CrankRoll(hash, d, vault, allocs, from, to, minBaseOut, env).Ok?
    ensures from < |allocs| && to < |allocs|
    ensures var next := CrankRoll(hash, d, vault, allocs, from, to, minBaseOut, env).value;
            && Deployed(next) == Deployed(allocs) - allocs[from].deployedBase + (env.escrowAfter - env.escrowBefore)
            && next[to].deployedBase <= next[to].capBase
    ensures SlippageFloor(allocs[from].deployedBase, d.maxSlippageBps) <= env.escrowAfter - env.escrowBefore
    ensures allocs[from].deployedBase <= Deployed(allocs)
  {
    var emptied, next := RollShape(hash, d, vault, allocs, from, to, minBaseOut, env);
    hide Deployed, CrankRoll, SlippageFloor;
    DeployedPut(allocs, from, allocs[from].(deployedBase := 0));
    DeployedPut(emptied, to, emptied[to].(deployedBase := next));
  }

  /** Deploying base grows the total by exactly that and keeps terms and caps. */
  lemma ReallocateToKeeps(allocs: seq<Allocation>, i: nat, market: Key, baseIn: nat)
    requires ReallocateTo(allocs, i, market, baseIn).Ok?
    ensures var next := ReallocateTo(allocs, i, market, baseIn).value;
            && SameList(allocs, next) && (WithinCaps(allocs) ==> WithinCaps(next))
            && i < |next| && next[i].deployedBase <= next[i].capBase
            && Deployed(next) == Deployed(allocs) + baseIn
  {
    DeployedPut(allocs, i, ReallocateTo(allocs, i, market, baseIn).value[i]);
  }

  /** Taking base out lowers the total by exactly that, or by all that was recorded when it is less. */
  lemma ReallocateFromKeeps(allocs: seq<Allocation>, i: nat, market: Key, baseOut: nat)
    requires ReallocateFrom(allocs, i, market, baseOut).Ok?
    ensures i < |allocs|
    ensures var next := ReallocateFrom(allocs, i, market, baseOut).value;
            && SameList(allocs, next) && (WithinCaps(allocs) ==> WithinCaps(next))
            && Deployed(next) == Deployed(allocs) - Min(baseOut, allocs[i].deployedBase)
  {
    DeployedPut(allocs, i, ReallocateFrom(allocs, i, market, baseOut).value[i]);
  }

  /** A roll keeps terms and caps, and the delegation it was made under still passes. */
  lemma RollKeepsDelegation(hash: seq<Byte> -> Key, d: Delegation, vault: Key, allocs: seq<Allocation>, from: nat,
                            to: nat, minBaseOut: nat, env: RollEnv)
    requires CrankRoll(hash, d, vault, allocs, from, to, minBaseOut, env).Ok?
    ensures var next := CrankRoll(hash, d, vault, allocs, from, to, minBaseOut, env).value;
            && SameList(allocs, next) && (WithinCaps(allocs) ==> WithinCaps(next))
            && Validate(hash, d, vault, next, env.slot).Ok?
  {
    var op := RollOp(d, from, to, minBaseOut, env);
    StepKeepsTerms(hash, vault, allocs, op);
    PreimageSameList(allocs, Step(hash, vault, allocs, op));
    hide SameList, Preimage, WithinCaps;
  }

  lemma StepKeepsFits(hash: seq<Byte> -> Key, vault: Key, allocs: seq<Allocation>, op: Op)
    requires Fits(allocs)
    ensures Fits(Step(hash, vault, allocs, op))
  {
    hide Validate, SlippageFloor;
  }

  /** The share left by the slippage `s`. */
  function Kept(s: nat): real {
    (10_000 - s) as real / 10_000.0
  }

  /** The part of `x` left by one roll of slippage `s`. */
  function Left(s: nat, x: nat): real {
    Kept(s) * x as real
  }

  function Power(q: real, n: nat): real {
    if n == 0 then 1.0 else q * Power(q, n - 1)
  }

  /** One roll under a slippage of at most `s` leaves at least that share of all that is deployed, less one unit. */
  lemma RollKeepsShare(hash: seq<Byte> -> Key, vault: Key, allocs: seq<Allocation>, op: Op, s: nat)
    requires op.RollOp? && op.d.maxSlippageBps <= s <= 10_000 && Fits(allocs)
    requires CrankRoll(hash, op.d, vault, allocs, op.from, op.to, op.minBaseOut, op.env).Ok?
    ensures Deployed(Step(hash, vault, allocs, op)) as real >= Left(s, Deployed(allocs)) - 1.0
  {
    RollChangesDeployed(hash, op.d, vault, allocs, op.from, op.to, op.minBaseOut, op.env);
    var x, all := allocs[op.from].deployedBase, Deployed(allocs);
    assert x * 10_000 <= U64_MAX;
    hide SlippageFloor, CrankRoll, Fits, Left, Deployed;
    FloorKeeps(x, op.d.maxSlippageBps, s);
    ShareOfRest(all, x, SlippageFloor(x, op.d.maxSlippageBps), op.env.escrowAfter - op.env.escrowBefore, s);
  }

  lemma FloorKeeps(x: nat, bps: nat, s: nat)
    requires bps <= s <= 10_000 && x * 10_000 <= U64_MAX
    ensures x * (10_000 - s) < SlippageFloor(x, bps) * 10_000 + 10_000
  {
    MulMono(10_000 - s, 10_000 - bps, x);
    MulMono(10_000 - bps, 10_000, x);
    DivBounds(x * (10_000 - bps), 10_000);
    assert SatSub(10_000, bps) == 10_000 - bps;
  }

  lemma ShareOfRest(all: nat, x: nat, floor: nat, back: nat, s: nat)
    requires s <= 10_000 && x <= all && x * (10_000 - s) < floor * 10_000 + 10_000 && floor <= back
    ensures (all - x + back) as real >= Left(s, all) - 1.0
  {
    var q := 10_000 - s;
    MulMono(q, 10_000, all - x);
    Distribute(q, all - x, x);
    KeptTimes(all, s, q);
    assert q * all <= (all - x + back) * 10_000 + 10_000;
  }

  lemma KeptTimes(all: nat, s: nat, q: nat)
    requires s <= 10_000 && q == 10_000 - s
    ensures Left(s, all) == (q * all) as real / 10_000.0
  {
    assert (q * all) as real == q as real * all as real;
  }

  lemma {:induction false} PowerShape(q: real, n: nat)
    requires 0.0 <= q <= 1.0
    ensures 0.0 <= Power(q, n) <= 1.0
    ensures Power(q, n + 1) <= Power(q, n)
  {
    if n > 0 {
      PowerShape(q, n - 1);
      MulMonoReal(q, 0.0, Power(q, n - 1));
      MulMonoReal(q, Power(q, n - 1), 1.0);
    }
    MulMonoReal(Power(q, n), q, 1.0);
  }

  /** What `n` rolls of slippage at most `s` leave of `x` at least. */
  function LeftAfter(s: nat, n: nat, x: nat): real {
    Power(Kept(s), n) * x as real - n as real
  }

  /** How many operations of a run are accepted. */
  function Accepted(hash: seq<Byte> -> Key, vault: Key, allocs: seq<Allocation>, ops: seq<Op>): nat
    decreases |ops|
  {
    if ops == [] then 0
    else
      var rest := Accepted(hash, vault, Step(hash, vault, allocs, ops[0]), ops[1..]);
      if Apply(hash, vault, allocs, ops[0]).Ok? then 1 + rest else rest
  }

  predicate RollsWithin(ops: seq<Op>, s: nat) {
    forall k :: 0 <= k < |ops| ==> ops[k].RollOp? && ops[k].d.maxSlippageBps <= s
  }

  lemma LeftJoins(s: nat, n: nat, before: nat, mid: nat, end: real)
    requires s <= 10_000 && mid as real >= Left(s, before) - 1.0 && end >= LeftAfter(s, n, mid)
    ensures end >= LeftAfter(s, n + 1, before)
  {
    var q := Kept(s);
    PowerShape(q, n);
    assert Power(q, n + 1) == q * Power(q, n);
    hide Kept, Power;
    JoinPowers(q, Power(q, n), Power(q, n + 1), before as real, mid as real, end, n as real);
  }

  lemma ThreeFactors(p: real, q: real, b: real)
    ensures p * (q * b) == q * p * b
  {
  }

  lemma JoinPowers(q: real, p: real, next: real, before: real, mid: real, end: real, n: real)
    requires 0.0 <= p <= 1.0 && next == q * p && mid >= q * before - 1.0 && end >= p * mid - n
    ensures end >= next * before - (n + 1.0)
  {
    ThreeFactors(p, q, before);
    JoinTerms(p, q * before, mid, next * before, end, n);
  }

  lemma JoinTerms(p: real, y: real, mid: real, all: real, end: real, n: real)
    requires 0.0 <= p <= 1.0 && p * y == all && mid >= y - 1.0 && end >= p * mid - n
    ensures end >= all - (n + 1.0)
  {
    var z := y - 1.0;
    MulMonoReal(p, z, mid);
    assert end >= p * z - n;
    assert p * z == p * y - p;
  }

  lemma LeftAtStart(s: nat, x: nat)
    ensures LeftAfter(s, 0, x) == x as real
  {
    assert Power(Kept(s), 0) == 1.0;
  }

  /**
   However keepers chain rolls under delegations of slippage at most `s`, after `n` accepted rolls the
   base deployed is at least what it was times (1 - s/10000)^n, less one unit a roll.
   */
  lemma {:induction false} RollsKeepValue(hash: seq<Byte> -> Key, vault: Key, allocs: seq<Allocation>, ops: seq<Op>,
                                          s: nat)
    requires s <= 10_000 && Fits(allocs) && RollsWithin(ops, s)
    ensures var n := Accepted(hash, vault, allocs, ops);
            Deployed(Run(hash, vault, allocs, ops)) as real >= LeftAfter(s, n, Deployed(allocs))
    decreases |ops|
  {
    if ops == [] {
      LeftAtStart(s, Deployed(allocs));
    } else {
      var next := Step(hash, vault, allocs, ops[0]);
      assert Apply(hash, vault, allocs, ops[0]).Err? ==> next == allocs;
      StepKeepsFits(hash, vault, allocs, ops[0]);
      hide Step, LeftAfter, Left, Fits, Deployed, CrankRoll;
      RollsKeepValue(hash, vault, next, ops[1..], s);
      if Apply(hash, vault, allocs, ops[0]).Ok? {
        RollKeepsShare(hash, vault, allocs, ops[0], s);
        LeftJoins(s, Accepted(hash, vault, next, ops[1..]), Deployed(allocs), Deployed(next),
                  Deployed(Run(hash, vault, allocs, ops)) as real);
      }
    }
  }
}
