/**
 User-signed roll delegations: the commitment to the curator's allocations, its check, and the rolls it
 allows a keeper to make.

 What the market calls of a roll leave in the base escrow, the clocks and the accounts a keeper passes
 are environment values; only the checks the program makes constrain them.
 */
module RollDelegation {
  import opened Foundations

  type Byte = n: int | 0 <= n < 0x100

  type U16 = n: int | 0 <= n < 0x1_0000

  type U64 = n: int | 0 <= n <= U64_MAX

  /** A 32-byte public key or digest. */
  type Key = s: seq<Byte> | |s| == 32 witness seq(32, i => 0)

  datatype Allocation = Allocation(market: Key, weightBps: U16, capBase: U64, deployedBase: U64)

  datatype Delegation = Delegation(vault: Key, user: Key, maxSlippageBps: U16, expiresAtSlot: U64, allocationsHash: Key,
                                   createdAtSlot: U64)

  datatype Error =
    | SlippageTooWide
    | TtlTooShort
    | TtlTooLong
    | Expired
    | AllocationsDrifted
    | VaultMismatch
    | IndexOutOfRange
    | MarketMismatch
    | FromMarketNotMatured
    | SlippageBelowDelegationFloor
    | NothingToRoll
    | DeployedBaseDrift
    | WeightsExceedFull
    | ZeroAmount
    | CapExceeded
    | Overflow

  const MAX_SLIPPAGE_BPS: nat := 1_000

  const MIN_TTL_SLOTS: nat := 216_000

  const MAX_TTL_SLOTS: nat := 21_600_000

  // ---------- The commitment ----------

  /** The low `k` bytes of a number, least significant first. */
  function LeBytes(n: nat, k: nat): (s: seq<Byte>)
    ensures |s| == k
  {
    if k == 0 then [] else [n % 0x100] + LeBytes(n / 0x100, k - 1)
  }

  /** An allocation's market, weight and cap in 42 bytes; what is deployed is left out. */
  function CommitBytes(a: Allocation): (s: seq<Byte>)
    ensures |s| == 42
  {
    a.market + LeBytes(a.weightBps, 2) + LeBytes(a.capBase, 8)
  }

  /** The hash function is fed the commitments one after the other. */
  function Preimage(allocs: seq<Allocation>): seq<Byte> {
    if allocs == [] then [] else CommitBytes(allocs[0]) + Preimage(allocs[1..])
  }

  function HashAllocations(hash: seq<Byte> -> Key, allocs: seq<Allocation>): Key {
    hash(Preimage(allocs))
  }

  // ---------- Delegations ----------

  function CreateDelegation(hash: seq<Byte> -> Key, vault: Key, user: Key, allocs: seq<Allocation>, maxSlippageBps: U16,
                            ttlSlots: U64, slot: U64)
    : Result<Delegation, Error>
  {
    if maxSlippageBps > MAX_SLIPPAGE_BPS then Err(SlippageTooWide)
    else if ttlSlots < MIN_TTL_SLOTS then Err(TtlTooShort)
    else if ttlSlots > MAX_TTL_SLOTS then Err(TtlTooLong)
    else Ok(Delegation(vault, user, maxSlippageBps, SatAdd(slot, ttlSlots), HashAllocations(hash, allocs), slot))
  }

  function Validate(hash: seq<Byte> -> Key, d: Delegation, vault: Key, allocs: seq<Allocation>, slot: nat)
    : Result<(), Error>
  {
    if d.vault != vault then Err(VaultMismatch)
    else if slot >= d.expiresAtSlot then Err(Expired)
    else if HashAllocations(hash, allocs) != d.allocationsHash then Err(AllocationsDrifted)
    else Ok(())
  }

  /** The least base a roll of `deployed` may return; the product saturates at u64. */
  function SlippageFloor(deployed: nat, maxSlippageBps: nat): nat {
    Min(deployed * SatSub(10_000, maxSlippageBps), U64_MAX) / 10_000
  }

  // ---------- Moving base between markets ----------

  /** The accounts and clocks a roll meets. */
  datatype RollEnv = RollEnv(
    slot: nat,
    unixTime: int,
    fromMarket: Key,
    toMarket: Key,
    fromExpiry: int,
    lpHeld: nat,
    escrowBefore: nat,
    escrowAfter: nat)

  function CrankRoll(hash: seq<Byte> -> Key, d: Delegation, vault: Key, allocs: seq<Allocation>, from: nat, to: nat,
                     minBaseOut: nat, env: RollEnv)
    : Result<seq<Allocation>, Error>
  {
    var _ :- Validate(hash, d, vault, allocs, env.slot);
    if from >= |allocs| || to >= |allocs| then Err(IndexOutOfRange)
    else if allocs[from].market != env.fromMarket || allocs[to].market != env.toMarket then Err(MarketMismatch)
    else if env.unixTime < env.fromExpiry then Err(FromMarketNotMatured)
    else
      var deployed := allocs[from].deployedBase;
      if deployed == 0 then Err(NothingToRoll)
      else if env.lpHeld < deployed then Err(DeployedBaseDrift)
      else if minBaseOut < SlippageFloor(deployed, d.maxSlippageBps) then Err(SlippageBelowDelegationFloor)
      else
        var baseOut := env.escrowAfter - env.escrowBefore;
        if baseOut < 0 || baseOut < minBaseOut then Err(SlippageBelowDelegationFloor)
        else
          var emptied := allocs[from := allocs[from].(deployedBase := 0)];
          var next := emptied[to].deployedBase + baseOut;
          if next > U64_MAX then Err(Overflow)
          else if next > emptied[to].capBase then Err(CapExceeded)
          else Ok(emptied[to := emptied[to].(deployedBase := next)])
  }

  /** What a curator moves into one market, before the market calls succeed. */
  function ReallocateTo(allocs: seq<Allocation>, i: nat, market: Key, baseIn: nat): Result<seq<Allocation>, Error> {
    if baseIn == 0 then Err(ZeroAmount)
    else if i >= |allocs| then Err(IndexOutOfRange)
    else if allocs[i].market != market then Err(MarketMismatch)
    else
      var next := allocs[i].deployedBase + baseIn;
      if next > U64_MAX then Err(Overflow)
      else if next > allocs[i].capBase then Err(CapExceeded)
      else Ok(allocs[i := allocs[i].(deployedBase := next)])
  }

  /** What a curator takes out of one market, as the curator reports it. */
  function ReallocateFrom(allocs: seq<Allocation>, i: nat, market: Key, baseOut: nat): Result<seq<Allocation>, Error> {
    if i >= |allocs| then Err(IndexOutOfRange)
    else if allocs[i].market != market then Err(MarketMismatch)
    else Ok(allocs[i := allocs[i].(deployedBase := SatSub(allocs[i].deployedBase, baseOut))])
  }

  function SumWeights(allocs: seq<Allocation>): nat {
    if allocs == [] then 0 else allocs[0].weightBps + SumWeights(allocs[1..])
  }

  function SetAllocations(allocs: seq<Allocation>): Result<seq<Allocation>, Error> {
    if SumWeights(allocs) > 10_000 then Err(WeightsExceedFull) else Ok(allocs)
  }

  // ---------- Runs ----------

  datatype Op =
    | ToOp(i: nat, market: Key, baseIn: nat)
    | FromOp(i: nat, market: Key, baseOut: nat)
    | RollOp(d: Delegation, from: nat, to: nat, minBaseOut: nat, env: RollEnv)

  function Apply(hash: seq<Byte> -> Key, vault: Key, allocs: seq<Allocation>, op: Op): Result<seq<Allocation>, Error> {
    match op
    case ToOp(i, market, baseIn) => ReallocateTo(allocs, i, market, baseIn)
    case FromOp(i, market, baseOut) => ReallocateFrom(allocs, i, market, baseOut)
    case RollOp(d, from, to, minBaseOut, env) => CrankRoll(hash, d, vault, allocs, from, to, minBaseOut, env)
  }

  function Step(hash: seq<Byte> -> Key, vault: Key, allocs: seq<Allocation>, op: Op): seq<Allocation> {
    match Apply(hash, vault, allocs, op)
    case Ok(next) => next
    case Err(_) => allocs
  }

  function Run(hash: seq<Byte> -> Key, vault: Key, allocs: seq<Allocation>, ops: seq<Op>): seq<Allocation>
    decreases |ops|
  {
    if ops == [] then allocs else Run(hash, vault, Step(hash, vault, allocs, ops[0]), ops[1..])
  }
}
