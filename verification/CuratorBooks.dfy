/** The curator's vault read off the operations of a run: every holder's shares and the assets behind them. */
module CuratorBooks {
  import opened Foundations
  import opened CuratorVaults
  import opened CuratorShares

  // ---------- What a deposit mints and a withdrawal pays ----------

  /** Within 64 bits, the most shares whose price the amount covers. */
  lemma SharesExactIff(assets: nat, supply: nat, amount: nat, k: nat)
    requires amount * (supply + VIRTUAL) / (assets + VIRTUAL) <= U64_MAX
    ensures k <= SharesFor(assets, supply, amount) <==> k * (assets + VIRTUAL) <= amount * (supply + VIRTUAL)
  {
    CutDown(amount * (supply + VIRTUAL) / (assets + VIRTUAL));
    QuotientCovers(amount * (supply + VIRTUAL), assets + VIRTUAL, k);
    hide AsU64;
  }

  /** Within 64 bits, the most assets the shares are worth. */
  lemma AssetsExactIff(assets: nat, supply: nat, shares: nat, k: nat)
    requires shares * (assets + VIRTUAL) / (supply + VIRTUAL) <= U64_MAX
    ensures k <= AssetsFor(assets, supply, shares) <==> k * (supply + VIRTUAL) <= shares * (assets + VIRTUAL)
  {
    CutDown(shares * (assets + VIRTUAL) / (supply + VIRTUAL));
    QuotientCovers(shares * (assets + VIRTUAL), supply + VIRTUAL, k);
    hide AsU64;
  }

  lemma QuotientCovers(n: nat, d: nat, k: nat)
    requires d > 0
    ensures k <= n / d <==> k * d <= n
  {
    if k * d <= n {
      DivAtLeast(n, d, k);
    } else {
      DivAtMost(n, d, k - 1);
    }
  }

  // ---------- The books ----------

  /** What the books follow. */
  datatype Account = Shares(owner: Pubkey) | Supply | Assets | Escrow

  function Value(acc: Account, v: Vault): int {
    match acc
    case Shares(owner) => SharesOf(v, owner)
    case Supply => v.supply
    case Assets => v.assets
    case Escrow => v.escrow
  }

  /** What an accepted deposit of one of the counted owners puts in. */
  function Inflow(acc: Account, v: Vault, op: Op): int {
    if !op.DepositOp? || Apply(v, op).Err? then 0
    else
      match acc
      case Shares(owner) => if op.owner == owner then SharesFor(v.assets, v.supply, op.amount) else 0
      case Supply => SharesFor(v.assets, v.supply, op.amount)
      case Assets => op.amount
      case Escrow => op.amount
  }

  /** What an accepted withdrawal takes out: the shares asked for, and what they are paid. */
  function Outflow(acc: Account, v: Vault, op: Op): int {
    if !op.WithdrawOp? || Apply(v, op).Err? then 0
    else
      match acc
      case Shares(owner) => if op.owner == owner then op.shares else 0
      case Supply => op.shares
      case Assets => AssetsFor(v.assets, v.supply, op.shares)
      case Escrow => AssetsFor(v.assets, v.supply, op.shares)
  }

  ghost function TotalIn(acc: Account, v: Vault, ops: seq<Op>): int
    decreases |ops|
  {
    if ops == [] then 0 else Inflow(acc, v, ops[0]) + TotalIn(acc, Step(v, ops[0]), ops[1..])
  }

  ghost function TotalOut(acc: Account, v: Vault, ops: seq<Op>): int
    decreases |ops|
  {
    if ops == [] then 0 else Outflow(acc, v, ops[0]) + TotalOut(acc, Step(v, ops[0]), ops[1..])
  }

  /** Operations that leave an account to deposits and withdrawals: for the shares of others, harvests do too. */
  predicate LeavesBooks(acc: Account, curator: Pubkey, op: Op) {
    match op
    case HarvestOp(_) => acc == Escrow || (acc.Shares? && acc.owner != curator)
    case MarkOp(_, _) => acc.Shares? || acc == Supply
    case _ => true
  }

  lemma StepBooked(acc: Account, v: Vault, op: Op)
    requires LeavesBooks(acc, v.curator, op)
    ensures Value(acc, Step(v, op)) == Value(acc, v) + Inflow(acc, v, op) - Outflow(acc, v, op)
    ensures Step(v, op).curator == v.curator
  {
    hide SharesFor, AssetsFor, FeeOn, FeeShares;
  }

  /**
   Over any run of such operations, what an account holds is what it held, plus what deposits put in, less what
   withdrawals asked for and were paid. A holder's shares are moved by that holder's own operations alone.
   */
  lemma {:induction false} RunBooked(acc: Account, v: Vault, ops: seq<Op>)
    requires forall k :: 0 <= k < |ops| ==> LeavesBooks(acc, v.curator, ops[k])
    ensures Value(acc, Run(v, ops)) == Value(acc, v) + TotalIn(acc, v, ops) - TotalOut(acc, v, ops)
    decreases |ops|
  {
    if ops != [] {
      StepBooked(acc, v, ops[0]);
      hide Step, Value, Inflow, Outflow, LeavesBooks;
      RunBooked(acc, Step(v, ops[0]), ops[1..]);
    }
  }

  // ---------- Partial withdrawals ----------

  /** Who withdraws part keeps the rest, and the rest is worth no less than it was. */
  lemma PartialWithdrawalKeepsRest(v: Vault, owner: Pubkey, shares: nat)
    requires Withdraw(v, owner, shares).Ok?
    ensures var v' := Withdraw(v, owner, shares).value;
            && SharesOf(v', owner) == SharesOf(v, owner) - shares
            && Claim(v', SharesOf(v', owner)) >= Claim(v, SharesOf(v, owner) - shares)
  {
    var v' := Withdraw(v, owner, shares).value;
    var rest := SharesOf(v', owner);
    hide AssetsFor;
    WithdrawKeepsPrice(v, owner, shares);
    ClaimOrdered(rest, v.assets + VIRTUAL, v.supply + VIRTUAL, v'.assets + VIRTUAL, v'.supply + VIRTUAL);
  }

  // ---------- What the vault accepts ----------

  lemma DepositAcceptedIff(v: Vault, owner: Pubkey, amount: nat)
    requires Inv(v)
    ensures Deposit(v, owner, amount).Ok?
            <==> && amount > 0 && amount * (v.supply + VIRTUAL) <= U128_MAX && v.assets + amount <= U64_MAX
                 && v.supply + SharesFor(v.assets, v.supply, amount) <= U64_MAX
  {
    HeldWithin(v, owner);
    hide SharesFor, Inv;
  }

  /** A withdrawal is accepted exactly up to the shares held, as far as assets and escrow pay what they are worth. */
  lemma WithdrawAcceptedIff(v: Vault, owner: Pubkey, shares: nat)
    requires Inv(v)
    ensures Withdraw(v, owner, shares).Ok?
            <==> && 0 < shares <= SharesOf(v, owner) && shares * (v.assets + VIRTUAL) <= U128_MAX
                 && AssetsFor(v.assets, v.supply, shares) <= v.assets
                 && AssetsFor(v.assets, v.supply, shares) <= v.escrow
  {
    HeldWithin(v, owner);
    hide AssetsFor, Inv;
  }

  // ---------- What a harvest mints ----------

  /**
   The shares a harvest mints, within 64 bits, are the most whose part of the assets less the fee is covered by the
   fee's part of the supply: the price of existing holders.
   */
  lemma FeeSharesExactIff(supply: nat, fee: nat, assets: nat, k: nat)
    requires fee < assets && supply * fee / (assets - fee) <= U64_MAX
    ensures k <= FeeShares(supply, fee, assets) <==> k * (assets - fee) <= supply * fee
  {
    CutDown(supply * fee / (assets - fee));
    QuotientCovers(supply * fee, assets - fee, k);
    hide AsU64;
  }

  /**
   So a harvest with shares outstanding mints at the price of existing holders; without any it mints one share for
   each unit of the fee. A fee as large as the assets mints nothing to outstanding shares.
   */
  lemma HarvestMints(v: Vault, current: nat, k: nat)
    requires Inv(v) && Harvest(v, current).Ok?
    ensures var minted, fee := Harvest(v, current).value.supply - v.supply, FeeOn(v, current);
            && (v.supply == 0 ==> minted == fee)
            && (v.supply > 0 && fee >= current ==> minted == 0)
            && (v.supply > 0 && fee < current && v.supply * fee / (current - fee) <= U64_MAX ==>
                  (k <= minted <==> k * (current - fee) <= v.supply * fee))
  {
    var fee := FeeOn(v, current);
    hide FeeOn, FeeShares, Inv;
    if fee < current && v.supply > 0 && v.supply * fee / (current - fee) <= U64_MAX {
      FeeSharesExactIff(v.supply, fee, current, k);
      if fee == 0 && k > 0 {
        MulMono(1, k, current);
      }
    }
  }

  /** Within 64 bits, the fee is the exact part of the gain since the last harvest, rounded down; a loss is free. */
  lemma FeeExactIff(v: Vault, current: nat, k: nat)
    requires v.feeBps <= MAX_FEE_BPS && current <= U64_MAX
    ensures k <= FeeOn(v, current) <==> k == 0 || k * 10_000 <= (current - v.lastHarvest) * v.feeBps
  {
    var gain := SatSub(current, v.lastHarvest);
    ChargeFits(gain, v.feeBps);
    QuotientCovers(gain * v.feeBps, 10_000, k);
    if current < v.lastHarvest {
      MulMono(current - v.lastHarvest, 0, v.feeBps);
    }
    hide AsU64;
  }
}
