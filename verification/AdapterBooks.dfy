/** The reference adapter read off the operations of a run: every holder's SY, the supply and the base behind it. */
module AdapterBooks {
  import opened Foundations
  import opened Numbers
  import opened SyAdapter

  // ---------- The books ----------

  datatype Account = Wallet(owner: Pubkey) | Deposit(owner: Pubkey) | Pool | Supply | Base

  function Value(acc: Account, m: Market): int {
    match acc
    case Wallet(owner) => Held(m, owner)
    case Deposit(owner) => if owner in m.positions then m.positions[owner] else 0
    case Pool => m.poolEscrow
    case Supply => m.sySupply
    case Base => m.baseVault
  }

  predicate Concerns(acc: Account, owner: Pubkey) {
    (acc.Wallet? || acc.Deposit?) ==> acc.owner == owner
  }

  /** What an accepted operation moves into an account: minted SY is the base over the rate, rounded down. */
  function Inflow(acc: Account, m: Market, op: Op): int {
    if Apply(m, op).Err? then 0
    else
      match op
      case MintOp(owner, base) =>
        if acc.Base? then base
        else if (acc.Wallet? || acc.Supply?) && Concerns(acc, owner) && m.rate > 0 then base * ONE / m.rate
        else 0
      case DepositOp(owner, amount) => if (acc.Deposit? || acc.Pool?) && Concerns(acc, owner) then amount else 0
      case WithdrawOp(owner, amount) => if acc.Wallet? && Concerns(acc, owner) then amount else 0
      case _ => 0
  }

  /** And what it moves out: redeemed base is the SY times the rate, rounded down. */
  function Outflow(acc: Account, m: Market, op: Op): int {
    if Apply(m, op).Err? then 0
    else
      match op
      case RedeemOp(owner, sy) =>
        if acc.Base? then sy * m.rate / ONE
        else if (acc.Wallet? || acc.Supply?) && Concerns(acc, owner) then sy
        else 0
      case DepositOp(owner, amount) => if acc.Wallet? && Concerns(acc, owner) then amount else 0
      case WithdrawOp(owner, amount) => if (acc.Deposit? || acc.Pool?) && Concerns(acc, owner) then amount else 0
      case _ => 0
  }

  ghost function TotalIn(acc: Account, m: Market, ops: seq<Op>): int
    decreases |ops|
  {
    if ops == [] then 0 else Inflow(acc, m, ops[0]) + TotalIn(acc, Step(m, ops[0]), ops[1..])
  }

  ghost function TotalOut(acc: Account, m: Market, ops: seq<Op>): int
    decreases |ops|
  {
    if ops == [] then 0 else Outflow(acc, m, ops[0]) + TotalOut(acc, Step(m, ops[0]), ops[1..])
  }

  lemma StepBooked(acc: Account, m: Market, op: Op)
    ensures Value(acc, Step(m, op)) == Value(acc, m) + Inflow(acc, m, op) - Outflow(acc, m, op)
  {
    if m.rate > 0 {
      match op
      case MintOp(_, base) => SyOutExact(m.rate, base);
      case RedeemOp(_, sy) => BaseOutExact(m.rate, sy);
      case _ =>
    }
    hide SyOut, BaseOut;
  }

  /**
   Over any run, pokes included, an account holds what it held, plus what operations moved in, less what they moved
   out. A holder's SY is moved by that holder's own operations alone.
   */
  lemma {:induction false} RunBooked(acc: Account, m: Market, ops: seq<Op>)
    ensures Value(acc, Run(m, ops)) == Value(acc, m) + TotalIn(acc, m, ops) - TotalOut(acc, m, ops)
    decreases |ops|
  {
    if ops != [] {
      StepBooked(acc, m, ops[0]);
      hide Step, Value, Inflow, Outflow;
      RunBooked(acc, Step(m, ops[0]), ops[1..]);
    }
  }

  // ---------- What is accepted ----------

  lemma MintAcceptedIff(m: Market, owner: Pubkey, base: nat)
    ensures MintSy(m, owner, base).Ok?
            <==> m.rate > 0 && m.baseVault + base <= U64_MAX && m.sySupply + base * ONE / m.rate <= U64_MAX
  {
    if m.rate > 0 {
      SyOutExact(m.rate, base);
    }
    hide SyOut;
  }

  /** A redemption is accepted exactly up to what is held, as far as the vault pays it. */
  lemma RedeemAcceptedIff(m: Market, owner: Pubkey, sy: nat)
    requires Inv(m)
    ensures RedeemSy(m, owner, sy).Ok? <==> m.rate > 0 && sy <= Held(m, owner) && sy * m.rate < (m.baseVault + 1) * ONE
  {
    HeldWithin(m, owner);
    BaseOutExact(m.rate, sy);
    DivBounds(sy * m.rate, ONE);
    hide BaseOut, Inv;
    if sy * m.rate < (m.baseVault + 1) * ONE {
      DivAtMost(sy * m.rate, ONE, m.baseVault);
    } else {
      DivAtLeast(sy * m.rate, ONE, m.baseVault + 1);
    }
  }

  lemma PoolAcceptedIff(m: Market, owner: Pubkey, amount: nat)
    requires Inv(m)
    ensures DepositSy(m, owner, amount).Ok?
            <==> && owner in m.positions
                 && (amount == 0 || (amount <= Held(m, owner) && m.positions[owner] + amount <= U64_MAX))
    ensures WithdrawSy(m, owner, amount).Ok? <==> owner in m.positions && amount <= m.positions[owner]
  {
    HeldWithin(m, owner);
    hide Inv;
  }
}
