/**
 The curator's share vault as transitions on values.

 Shares are priced against assets and shares raised by constant virtual amounts. Token transfers are
 changes of the base escrow; a transition that returns an error stands for a discarded transaction.
 */
module CuratorVaults {
  import opened Foundations

  type Pubkey = nat

  /** Virtual assets and virtual shares are the same constant. */
  const VIRTUAL: nat := 1_000_000

  const U128_MAX: nat := 0xFFFF_FFFF_FFFF_FFFF_FFFF_FFFF_FFFF_FFFF

  const MAX_FEE_BPS: nat := 2_000

  datatype Vault = Vault(
    curator: Pubkey,
    feeBps: nat,
    assets: nat,
    supply: nat,
    lastHarvest: nat,
    escrow: nat,
    shares: map<Pubkey, nat>)

  datatype Error =
    | FeeTooHigh
    | ZeroAmount
    | Overflow
    | AccountMissing
    | InsufficientShares
    | InsufficientAssets
    | TransferFailed

  /** Rust's `as u64` on a wider integer. */
  function AsU64(n: nat): nat {
    n % (U64_MAX + 1)
  }

  function SharesOf(v: Vault, owner: Pubkey): nat {
    if owner in v.shares then v.shares[owner] else 0
  }

  function NewVault(curator: Pubkey, feeBps: nat): Result<Vault, Error> {
    if feeBps > MAX_FEE_BPS then Err(FeeTooHigh) else Ok(Vault(curator, feeBps, 0, 0, 0, 0, map[]))
  }

  // ---------- Deposits and withdrawals ----------

  /** Shares for an amount of base, rounded down and then cut to 64 bits. */
  function SharesFor(assets: nat, supply: nat, amount: nat): nat {
    AsU64(amount * (supply + VIRTUAL) / (assets + VIRTUAL))
  }

  /** Base for an amount of shares, rounded down and then cut to 64 bits. */
  function AssetsFor(assets: nat, supply: nat, shares: nat): nat {
    AsU64(shares * (assets + VIRTUAL) / (supply + VIRTUAL))
  }

  function Deposit(v: Vault, owner: Pubkey, amount: nat): Result<Vault, Error> {
    if amount == 0 then Err(ZeroAmount)
    else if amount * (v.supply + VIRTUAL) > U128_MAX then Err(Overflow)
    else
      var out := SharesFor(v.assets, v.supply, amount);
      if v.assets + amount > U64_MAX || v.supply + out > U64_MAX
          || SharesOf(v, owner) + out > U64_MAX then Err(Overflow)
      else Ok(v.(assets := v.assets + amount, supply := v.supply + out, escrow := v.escrow + amount,
                 shares := v.shares[owner := SharesOf(v, owner) + out]))
  }

  function Withdraw(v: Vault, owner: Pubkey, shares: nat): Result<Vault, Error> {
    if owner !in v.shares then Err(AccountMissing)
    else if shares == 0 then Err(ZeroAmount)
    else if shares * (v.assets + VIRTUAL) > U128_MAX then Err(Overflow)
    else
      var out := AssetsFor(v.assets, v.supply, shares);
      if v.shares[owner] < shares || v.supply < shares then Err(InsufficientShares)
      else if v.assets < out then Err(InsufficientAssets)
      else if v.escrow < out then Err(TransferFailed)
      else Ok(v.(assets := v.assets - out, supply := v.supply - shares, escrow := v.escrow - out,
                 shares := v.shares[owner := v.shares[owner] - shares]))
  }

  // ---------- Fees ----------

  function FeeOn(v: Vault, current: nat): nat {
    AsU64(SatSub(current, v.lastHarvest) * v.feeBps / 10_000)
  }

  /** Fee shares under the formula of existing holders, cut to 64 bits. */
  function FeeShares(supply: nat, fee: nat, assets: nat): nat
    requires fee < assets
  {
    AsU64(supply * fee / (assets - fee))
  }

  /** Takes the attested assets as they are; with no shares outstanding the curator's position is overwritten. */
  function Harvest(v: Vault, current: nat): Result<Vault, Error> {
    var fee := FeeOn(v, current);
    var marked := v.(assets := current, lastHarvest := current);
    if fee > 0 && current > fee && v.supply > 0 then
      var minted := FeeShares(v.supply, fee, current);
      if v.supply + minted > U64_MAX || SharesOf(v, v.curator) + minted > U64_MAX then Err(Overflow)
      else Ok(marked.(supply := v.supply + minted, shares := v.shares[v.curator := SharesOf(v, v.curator) + minted]))
    else if fee > 0 && v.supply == 0 then
      Ok(marked.(supply := fee, shares := v.shares[v.curator := fee]))
    else Ok(marked)
  }

  // ---------- Runs ----------

  datatype Op =
    | DepositOp(owner: Pubkey, amount: nat)
    | WithdrawOp(owner: Pubkey, shares: nat)
    | HarvestOp(current: nat)
      /** A reallocation or a mark to market: what the markets leave in the escrow, and the assets read off it. */
    | MarkOp(assets: nat, escrow: nat)

  function Apply(v: Vault, op: Op): Result<Vault, Error> {
    match op
    case DepositOp(owner, amount) => Deposit(v, owner, amount)
    case WithdrawOp(owner, shares) => Withdraw(v, owner, shares)
    case HarvestOp(current) => Harvest(v, current)
    case MarkOp(assets, escrow) => Ok(v.(assets := assets, escrow := escrow))
  }

  function Step(v: Vault, op: Op): Vault {
    match Apply(v, op)
    case Ok(v') => v'
    case Err(_) => v
  }

  function Run(v: Vault, ops: seq<Op>): Vault
    decreases |ops|
  {
    if ops == [] then v else Run(Step(v, ops[0]), ops[1..])
  }
}
