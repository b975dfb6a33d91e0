/**
 The curator's vault account, its users' positions and the delegations signed over it, as the handlers
 update them in place.

 A handler that returns an error may leave its accounts half-written; the runtime then discards the
 whole transaction, so the contracts promise the new state of accepted calls only.
 */
module CuratorProgram {
  import opened Foundations
  import opened CuratorVaults
  import CuratorShares
  import CuratorBooks
  import R = RollDelegation
  import RollTheorems
  import RollBooks

  /** Overwrites `buf` from position `at` on with `src`. */
  method CopyFromSlice(buf: array<R.Byte>, at: nat, src: seq<R.Byte>)
    requires at + |src| <= buf.Length
    modifies buf
    ensures buf[..] == old(buf[..at]) + src + old(buf[at + |src|..])
  {
    ghost var before := buf[..];
    var i := 0;
    while i < |src|
      invariant 0 <= i <= |src|
      invariant buf[..] == before[..at] + src[..i] + before[at + i..]
    {
      buf[at + i] := src[i];
      i := i + 1;
    }
  }

  method CommitBytes(a: R.Allocation) returns (buf: array<R.Byte>)
    ensures fresh(buf) && buf[..] == R.CommitBytes(a)
  {
    buf := new R.Byte[42](_ => 0);
    CopyFromSlice(buf, 0, a.market);
    CopyFromSlice(buf, 32, R.LeBytes(a.weightBps, 2));
    CopyFromSlice(buf, 34, R.LeBytes(a.capBase, 8));
    assert buf[..][..32] == a.market;
  }

  class RollDelegation {
    var vault: R.Key
    var user: R.Key
    var maxSlippageBps: R.U16
    var expiresAtSlot: R.U64
    var allocationsHash: R.Key
    var createdAtSlot: R.U64

    function Data(): R.Delegation
      reads this
    {
      R.Delegation(vault, user, maxSlippageBps, expiresAtSlot, allocationsHash, createdAtSlot)
    }

    constructor (d: R.Delegation)
      ensures Data() == d
    {
      vault, user, maxSlippageBps := d.vault, d.user, d.maxSlippageBps;
      expiresAtSlot, allocationsHash, createdAtSlot := d.expiresAtSlot, d.allocationsHash, d.createdAtSlot;
    }

    method Create(hash: seq<R.Byte> -> R.Key, curatorVault: CuratorVault, signer: R.Key, maxSlippage: R.U16,
                  ttlSlots: R.U64, slot: R.U64)
      returns (r: Result<(), R.Error>)
      modifies this
      ensures match R.CreateDelegation(hash, curatorVault.key, signer, curatorVault.allocations,
                                       maxSlippage, ttlSlots, slot)
              case Err(e) => r == Err(e) && Data() == old(Data())
              case Ok(d) => r == Ok(()) && Data() == d
      ensures r.Ok? <==> maxSlippage <= 1_000 && 216_000 <= ttlSlots <= 21_600_000
      ensures r.Ok? ==> forall later: nat ::
                R.Validate(hash, Data(), curatorVault.key, curatorVault.allocations, later).Ok?
                <==> later < Min(slot + ttlSlots, U64_MAX)
    {
      if maxSlippage > R.MAX_SLIPPAGE_BPS {
        return Err(R.SlippageTooWide);
      }
      if ttlSlots < R.MIN_TTL_SLOTS {
        return Err(R.TtlTooShort);
      }
      if ttlSlots > R.MAX_TTL_SLOTS {
        return Err(R.TtlTooLong);
      }
      vault, user := curatorVault.key, signer;
      maxSlippageBps := maxSlippage;
      expiresAtSlot := SatAdd(slot, ttlSlots);
      allocationsHash := R.HashAllocations(hash, curatorVault.allocations);
      createdAtSlot := slot;
      r := Ok(());
    }
  }

  class CuratorVault {
    const key: R.Key
    const curator: Pubkey
    const feeBps: nat
    var totalAssets: nat
    var totalShares: nat
    var lastHarvestTotalAssets: nat
    var allocations: seq<R.Allocation>
    var baseEscrow: nat
    var positions: map<Pubkey, nat>

    function Data(): Vault
      reads this
    {
      Vault(curator, feeBps, totalAssets, totalShares, lastHarvestTotalAssets, baseEscrow, positions)
    }

    constructor (key: R.Key, curator: Pubkey, feeBps: nat)
      requires feeBps <= MAX_FEE_BPS
      ensures Data() == NewVault(curator, feeBps).value && allocations == []
    {
      this.key, this.curator, this.feeBps := key, curator, feeBps;
      totalAssets, totalShares, lastHarvestTotalAssets, baseEscrow := 0, 0, 0, 0;
      allocations, positions := [], map[];
    }

    function PositionShares(owner: Pubkey): nat
      reads this
    {
      SharesOf(Data(), owner)
    }

    // ---------- Shares ----------

    method Deposit(owner: Pubkey, amount: nat) returns (r: Result<nat, Error>)
      modifies this
      ensures match CuratorVaults.Deposit(old(Data()), owner, amount)
              case Err(e) => r == Err(e)
              case Ok(v) => Data() == v && r == Ok(SharesFor(old(totalAssets), old(totalShares), amount))
      ensures r.Ok? ==>
                && PositionShares(owner) == old(PositionShares(owner)) + r.value
                && totalShares == old(totalShares) + r.value && totalAssets == old(totalAssets) + amount
      ensures r.Ok? ==> CuratorShares.PriceKept(old(Data()), Data())
      ensures r.Ok? && CuratorShares.Inv(old(Data())) ==> CuratorShares.Inv(Data())
      ensures allocations == old(allocations)
    {
      hide SharesFor, CuratorShares.PriceKept, CuratorShares.Inv;
      if amount == 0 {
        return Err(ZeroAmount);
      }
      if amount * (totalShares + VIRTUAL) > U128_MAX {
        return Err(Overflow);
      }
      ghost var before := Data();
      var sharesOut := SharesFor(totalAssets, totalShares, amount);
      baseEscrow := baseEscrow + amount;
      if totalAssets + amount > U64_MAX {
        return Err(Overflow);
      }
      totalAssets := totalAssets + amount;
      if totalShares + sharesOut > U64_MAX {
        return Err(Overflow);
      }
      totalShares := totalShares + sharesOut;
      if PositionShares(owner) + sharesOut > U64_MAX {
        return Err(Overflow);
      }
      positions := positions[owner := PositionShares(owner) + sharesOut];
      CuratorShares.DepositKeepsPrice(before, owner, amount);
      if CuratorShares.Inv(before) {
        CuratorShares.StepInv(before, DepositOp(owner, amount));
      }
      r := Ok(sharesOut);
    }

    method Withdraw(owner: Pubkey, shares: nat) returns (r: Result<nat, Error>)
      modifies this
      ensures match CuratorVaults.Withdraw(old(Data()), owner, shares)
              case Err(e) => r == Err(e)
              case Ok(v) => Data() == v && r == Ok(AssetsFor(old(totalAssets), old(totalShares), shares))
      ensures r.Ok? ==>
                && PositionShares(owner) == old(PositionShares(owner)) - shares
                && totalShares == old(totalShares) - shares && totalAssets == old(totalAssets) - r.value
                && CuratorShares.Claim(Data(), PositionShares(owner))
                   >= CuratorShares.Claim(old(Data()), old(PositionShares(owner)) - shares)
      ensures r.Ok? ==> CuratorShares.PriceKept(old(Data()), Data())
      ensures r.Ok? && CuratorShares.Inv(old(Data())) ==> CuratorShares.Inv(Data())
      ensures allocations == old(allocations)
    {
      hide CuratorShares.Claim;
      hide AssetsFor, CuratorShares.PriceKept, CuratorShares.Inv;
      if owner !in positions {
        return Err(AccountMissing);
      }
      if shares == 0 {
        return Err(ZeroAmount);
      }
      if shares * (totalAssets + VIRTUAL) > U128_MAX {
        return Err(Overflow);
      }
      ghost var before := Data();
      var assetsOut := AssetsFor(totalAssets, totalShares, shares);
      if positions[owner] < shares {
        return Err(InsufficientShares);
      }
      positions := positions[owner := positions[owner] - shares];
      if totalShares < shares {
        return Err(InsufficientShares);
      }
      totalShares := totalShares - shares;
      if totalAssets < assetsOut {
        return Err(InsufficientAssets);
      }
      totalAssets := totalAssets - assetsOut;
      if baseEscrow < assetsOut {
        return Err(TransferFailed);
      }
      baseEscrow := baseEscrow - assetsOut;
      CuratorShares.WithdrawKeepsPrice(before, owner, shares);
      CuratorBooks.PartialWithdrawalKeepsRest(before, owner, shares);
      if CuratorShares.Inv(before) {
        CuratorShares.StepInv(before, WithdrawOp(owner, shares));
      }
      r := Ok(assetsOut);
    }

    method HarvestFees(current: nat) returns (r: Result<(), Error>)
      modifies this
      ensures match Harvest(old(Data()), current)
              case Err(e) => r == Err(e)
              case Ok(v) => r == Ok(()) && Data() == v
      ensures r.Ok? && CuratorShares.Inv(old(Data())) ==> CuratorShares.Inv(Data())
      ensures allocations == old(allocations)
    {
      hide FeeShares, AsU64, CuratorShares.Inv;
      ghost var before := Data();
      totalAssets := current;
      var fee := FeeOn(Data(), current);
      if fee > 0 && current > fee && totalShares > 0 {
        var minted := FeeShares(totalShares, fee, current);
        if totalShares + minted > U64_MAX {
          return Err(Overflow);
        }
        totalShares := totalShares + minted;
        if PositionShares(curator) + minted > U64_MAX {
          return Err(Overflow);
        }
        positions := positions[curator := PositionShares(curator) + minted];
      } else if fee > 0 && totalShares == 0 {
        totalShares := fee;
        positions := positions[curator := fee];
      }
      lastHarvestTotalAssets := current;
      if CuratorShares.Inv(before) {
        CuratorShares.StepInv(before, HarvestOp(current));
      }
      r := Ok(());
    }

    // ---------- Allocations ----------

    method SetAllocations(allocs: seq<R.Allocation>) returns (r: Result<(), R.Error>)
      modifies this`allocations
      ensures match R.SetAllocations(allocs)
              case Err(e) => r == Err(e) && allocations == old(allocations)
              case Ok(a) => r == Ok(()) && allocations == a
      ensures r.Ok? <==> forall assets: nat :: RollTheorems.SumTargets(allocs, assets) <= assets
      ensures r.Ok? ==> allocations == allocs
    {
      RollTheorems.WeightsAcceptedIff(allocs);
      hide R.SumWeights, RollTheorems.SumTargets;
      if R.SumWeights(allocs) > 10_000 {
        return Err(R.WeightsExceedFull);
      }
      allocations := allocs;
      r := Ok(());
    }

    method ReallocateToMarket(i: nat, market: R.Key, baseIn: nat) returns (r: Result<(), R.Error>)
      modifies this`allocations
      ensures match R.ReallocateTo(old(allocations), i, market, baseIn)
              case Err(e) => r == Err(e) && allocations == old(allocations)
              case Ok(a) => r == Ok(()) && allocations == a
      ensures RollTheorems.SameList(old(allocations), allocations)
      ensures RollTheorems.WithinCaps(old(allocations)) ==> RollTheorems.WithinCaps(allocations)
      ensures RollTheorems.Deployed(allocations)
           == RollTheorems.Deployed(old(allocations)) + if r.Ok? then baseIn else 0
    {
      hide RollTheorems.Deployed;
      if baseIn == 0 {
        return Err(R.ZeroAmount);
      }
      if i >= |allocations| {
        return Err(R.IndexOutOfRange);
      }
      if allocations[i].market != market {
        return Err(R.MarketMismatch);
      }
      var next := allocations[i].deployedBase + baseIn;
      if next > U64_MAX {
        return Err(R.Overflow);
      }
      if next > allocations[i].capBase {
        return Err(R.CapExceeded);
      }
      RollTheorems.ReallocateToKeeps(allocations, i, market, baseIn);
      allocations := allocations[i := allocations[i].(deployedBase := next)];
      r := Ok(());
    }

    method ReallocateFromMarket(i: nat, market: R.Key, baseOut: nat) returns (r: Result<(), R.Error>)
      modifies this`allocations
      ensures match R.ReallocateFrom(old(allocations), i, market, baseOut)
              case Err(e) => r == Err(e) && allocations == old(allocations)
              case Ok(a) => r == Ok(()) && allocations == a
      ensures RollTheorems.SameList(old(allocations), allocations)
      ensures RollTheorems.WithinCaps(old(allocations)) ==> RollTheorems.WithinCaps(allocations)
      ensures r.Ok? ==>
                RollTheorems.Deployed(allocations)
                == RollTheorems.Deployed(old(allocations)) - Min(baseOut, old(allocations[i].deployedBase))
    {
      hide RollTheorems.Deployed;
      if i >= |allocations| {
        return Err(R.IndexOutOfRange);
      }
      if allocations[i].market != market {
        return Err(R.MarketMismatch);
      }
      RollTheorems.ReallocateFromKeeps(allocations, i, market, baseOut);
      allocations := allocations[i := allocations[i].(deployedBase := SatSub(allocations[i].deployedBase, baseOut))];
      r := Ok(());
    }

    method CrankRollDelegated(hash: seq<R.Byte> -> R.Key, delegation: RollDelegation, from: nat, to: nat,
                              minBaseOut: nat, env: R.RollEnv)
      returns (r: Result<(), R.Error>)
      modifies this`allocations
      ensures match R.CrankRoll(hash, delegation.Data(), key, old(allocations), from, to, minBaseOut, env)
              case Err(e) => r == Err(e)
              case Ok(a) => r == Ok(()) && allocations == a
      ensures r.Ok? ==>
                && env.fromExpiry <= env.unixTime
                && from < |old(allocations)| && old(allocations[from].market) == env.fromMarket
                && to < |allocations| && allocations[to].market == env.toMarket
                && allocations[to].deployedBase
                   == RollBooks.Remaining(old(allocations), from, to) + (env.escrowAfter - env.escrowBefore)
      ensures r.Ok? ==>
                && RollTheorems.SameList(old(allocations), allocations)
                && (RollTheorems.WithinCaps(old(allocations)) ==> RollTheorems.WithinCaps(allocations))
                && R.Validate(hash, delegation.Data(), key, allocations, env.slot).Ok?
      ensures r.Ok? ==>
                && from < |old(allocations)| && to < |allocations|
                && allocations[to].deployedBase <= allocations[to].capBase
                && RollTheorems.Deployed(allocations)
                   == RollTheorems.Deployed(old(allocations)) - old(allocations[from].deployedBase)
                      + (env.escrowAfter - env.escrowBefore)
                && env.escrowAfter - env.escrowBefore
                   >= R.SlippageFloor(old(allocations[from].deployedBase), delegation.maxSlippageBps)
    {
      hide R.Validate, R.SlippageFloor, RollTheorems.SameList, RollTheorems.WithinCaps, RollTheorems.Deployed;
      ghost var d, before := delegation.Data(), allocations;
      var valid := R.Validate(hash, delegation.Data(), key, allocations, env.slot);
      if valid.Err? {
        return Err(valid.error);
      }
      if from >= |allocations| || to >= |allocations| {
        return Err(R.IndexOutOfRange);
      }
      if allocations[from].market != env.fromMarket || allocations[to].market != env.toMarket {
        return Err(R.MarketMismatch);
      }
      if env.unixTime < env.fromExpiry {
        return Err(R.FromMarketNotMatured);
      }
      var deployed := allocations[from].deployedBase;
      if deployed == 0 {
        return Err(R.NothingToRoll);
      }
      if env.lpHeld < deployed {
        return Err(R.DeployedBaseDrift);
      }
      if minBaseOut < R.SlippageFloor(deployed, delegation.maxSlippageBps) {
        return Err(R.SlippageBelowDelegationFloor);
      }
      var baseOut := env.escrowAfter - env.escrowBefore;
      if baseOut < 0 || baseOut < minBaseOut {
        return Err(R.SlippageBelowDelegationFloor);
      }
      var left := SatSub(allocations[from].deployedBase, deployed);
      allocations := allocations[from := allocations[from].(deployedBase := left)];
      var next := allocations[to].deployedBase + baseOut;
      if next > U64_MAX {
        return Err(R.Overflow);
      }
      if next > allocations[to].capBase {
        return Err(R.CapExceeded);
      }
      allocations := allocations[to := allocations[to].(deployedBase := next)];
      RollTheorems.RollKeepsDelegation(hash, d, key, before, from, to, minBaseOut, env);
      RollTheorems.RollChangesDeployed(hash, d, key, before, from, to, minBaseOut, env);
      r := Ok(());
    }
  }
}
