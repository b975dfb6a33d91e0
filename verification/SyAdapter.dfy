/**
 The reference SY adapter: a wrapper that mints SY for base and redeems it at a stored exchange rate.

 The base vault is taken to be the market's own pool. Token accounts are balances in a map; a transition
 that returns an error stands for a discarded transaction.
 */
module SyAdapter {
  import opened Foundations
  import opened Numbers
  import opened MapSums

  type Pubkey = nat

  datatype Market = Market(
    rate: Number,
    baseVault: nat,
    sySupply: nat,
    poolEscrow: nat,
    wallets: map<Pubkey, nat>,
    positions: map<Pubkey, nat>)

  datatype Error =
    | InvalidExchangeRate
    | ExchangeRateRegression
    | TransferFailed
    | AccountMissing
    | AccountExists
    | Overflow
    | InsufficientBalance

  function Held(m: Market, owner: Pubkey): nat {
    if owner in m.wallets then m.wallets[owner] else 0
  }

  /** The SY minted for `base`, and the base redeemed for `sy`. */
  function SyOut(rate: Number, base: nat): nat
    requires rate > 0
  {
    Floor(Div(FromNatural(base), rate))
  }

  function BaseOut(rate: Number, sy: nat): nat {
    Floor(Mul(FromNatural(sy), rate))
  }

  function NewMarket(rate: Number): Market {
    Market(rate, 0, 0, 0, map[], map[])
  }

  function MintSy(m: Market, owner: Pubkey, base: nat): Result<Market, Error> {
    if m.rate == 0 then Err(InvalidExchangeRate)
    else
      var out := SyOut(m.rate, base);
      if m.baseVault + base > U64_MAX || m.sySupply + out > U64_MAX then Err(TransferFailed)
      else Ok(m.(baseVault := m.baseVault + base, sySupply := m.sySupply + out,
                 wallets := m.wallets[owner := Held(m, owner) + out]))
  }

  function RedeemSy(m: Market, owner: Pubkey, sy: nat): Result<Market, Error> {
    if m.rate == 0 then Err(InvalidExchangeRate)
    else if Held(m, owner) < sy || m.sySupply < sy then Err(InsufficientBalance)
    else
      var out := BaseOut(m.rate, sy);
      if m.baseVault < out then Err(TransferFailed)
      else Ok(m.(baseVault := m.baseVault - out, sySupply := m.sySupply - sy,
                 wallets := m.wallets[owner := Held(m, owner) - sy]))
  }

  function InitPersonalAccount(m: Market, owner: Pubkey): Result<Market, Error> {
    if owner in m.positions then Err(AccountExists) else Ok(m.(positions := m.positions[owner := 0]))
  }

  function DepositSy(m: Market, owner: Pubkey, amount: nat): Result<Market, Error> {
    if owner !in m.positions then Err(AccountMissing)
    else if amount == 0 then Ok(m)
    else if Held(m, owner) < amount then Err(TransferFailed)
    else if m.positions[owner] + amount > U64_MAX then Err(Overflow)
    else Ok(m.(wallets := m.wallets[owner := Held(m, owner) - amount], poolEscrow := m.poolEscrow + amount,
               positions := m.positions[owner := m.positions[owner] + amount]))
  }

  function WithdrawSy(m: Market, owner: Pubkey, amount: nat): Result<Market, Error> {
    if owner !in m.positions then Err(AccountMissing)
    else if amount == 0 then Ok(m)
    else if m.positions[owner] < amount then Err(InsufficientBalance)
    else if m.poolEscrow < amount then Err(TransferFailed)
    else Ok(m.(wallets := m.wallets[owner := Held(m, owner) + amount], poolEscrow := m.poolEscrow - amount,
               positions := m.positions[owner := m.positions[owner] - amount]))
  }

  function PokeExchangeRate(m: Market, rate: Number): Result<Market, Error> {
    if rate == 0 then Err(InvalidExchangeRate)
    else if rate < m.rate then Err(ExchangeRateRegression)
    else Ok(m.(rate := rate))
  }

  datatype Op =
    | MintOp(owner: Pubkey, base: nat)
    | RedeemOp(owner: Pubkey, sy: nat)
    | InitOp(owner: Pubkey)
    | DepositOp(owner: Pubkey, amount: nat)
    | WithdrawOp(owner: Pubkey, amount: nat)
    | PokeOp(rate: Number)

  function Apply(m: Market, op: Op): Result<Market, Error> {
    match op
    case MintOp(owner, base) => MintSy(m, owner, base)
    case RedeemOp(owner, sy) => RedeemSy(m, owner, sy)
    case InitOp(owner) => InitPersonalAccount(m, owner)
    case DepositOp(owner, amount) => DepositSy(m, owner, amount)
    case WithdrawOp(owner, amount) => WithdrawSy(m, owner, amount)
    case PokeOp(rate) => PokeExchangeRate(m, rate)
  }

  function Step(m: Market, op: Op): Market {
    match Apply(m, op)
    case Ok(m') => m'
    case Err(_) => m
  }

  function Run(m: Market, ops: seq<Op>): Market
    decreases |ops|
  {
    if ops == [] then m else Run(Step(m, ops[0]), ops[1..])
  }

  // ---------- Rounding ----------

  lemma SyOutExact(rate: Number, base: nat)
    requires rate > 0
    ensures SyOut(rate, base) == base * ONE / rate
    ensures SyOut(rate, base) * rate <= base * ONE
  {
    FloorDivExact(FromNatural(base), rate);
    DivBounds(base * ONE, rate);
  }

  lemma BaseOutExact(rate: Number, sy: nat)
    ensures BaseOut(rate, sy) == sy * rate / ONE
    ensures BaseOut(rate, sy) * ONE <= sy * rate
  {
    assert Mul(FromNatural(sy), rate) == Mul(rate, FromNatural(sy)) by {
      assert (sy * ONE) * rate == rate * (sy * ONE);
    }
    FloorMulNatural(rate, sy);
    assert rate * sy == sy * rate;
  }

  /** Redeeming straight after minting returns at most the base put in. */
  lemma RoundTripNeverProfits(rate: Number, base: nat)
    requires rate > 0
    ensures BaseOut(rate, SyOut(rate, base)) <= base
  {
    SyOutExact(rate, base);
    BaseOutExact(rate, SyOut(rate, base));
  }

  // ---------- Solvency ----------

  /** All SY is in the pool or in a wallet, the pool holds what the positions say, and the vault is worth the supply. */
  ghost predicate Inv(m: Market) {
    && m.sySupply == Sum(m.wallets) + m.poolEscrow
    && m.poolEscrow == Sum(m.positions)
    && m.sySupply * m.rate <= m.baseVault * ONE
  }

  lemma HeldWithin(m: Market, owner: Pubkey)
    requires Inv(m)
    ensures Held(m, owner) <= Sum(m.wallets) <= m.sySupply
    ensures owner in m.positions ==> m.positions[owner] <= m.poolEscrow
  {
    if owner in m.wallets {
      SumCovers(m.wallets, owner);
    } else {
      SumNonNegative(m.wallets);
    }
    if owner in m.positions {
      SumCovers(m.positions, owner);
    }
  }

  lemma MintSolvent(m: Market, base: nat)
    requires m.rate > 0 && m.sySupply * m.rate <= m.baseVault * ONE
    ensures (m.sySupply + SyOut(m.rate, base)) * m.rate <= (m.baseVault + base) * ONE
  {
    SyOutExact(m.rate, base);
    hide SyOut;
    Distribute(m.rate, m.sySupply, SyOut(m.rate, base));
  }

  lemma RedeemSolvent(m: Market, sy: nat)
    requires m.rate > 0 && m.sySupply * m.rate <= m.baseVault * ONE && sy <= m.sySupply
    ensures BaseOut(m.rate, sy) <= m.baseVault
    ensures (m.sySupply - sy) * m.rate <= (m.baseVault - BaseOut(m.rate, sy)) * ONE
  {
    BaseOutExact(m.rate, sy);
    hide BaseOut;
    Distribute(m.rate, m.sySupply - sy, sy);
    MulMono(sy, m.sySupply, m.rate);
  }

  lemma MintKeeps(m: Market, owner: Pubkey, base: nat)
    requires Inv(m) && MintSy(m, owner, base).Ok?
    ensures Inv(MintSy(m, owner, base).value) && MintSy(m, owner, base).value.rate == m.rate
  {
    MintSolvent(m, base);
    hide SyOut;
    SumPut(m.wallets, owner, Held(m, owner) + SyOut(m.rate, base));
  }

  lemma RedeemKeeps(m: Market, owner: Pubkey, sy: nat)
    requires Inv(m) && RedeemSy(m, owner, sy).Ok?
    ensures Inv(RedeemSy(m, owner, sy).value) && RedeemSy(m, owner, sy).value.rate == m.rate
  {
    RedeemSolvent(m, sy);
    hide BaseOut;
    SumPut(m.wallets, owner, Held(m, owner) - sy);
  }

  lemma DepositKeeps(m: Market, owner: Pubkey, amount: nat)
    requires Inv(m) && DepositSy(m, owner, amount).Ok?
    ensures Inv(DepositSy(m, owner, amount).value) && DepositSy(m, owner, amount).value.rate == m.rate
  {
    SumPut(m.wallets, owner, Held(m, owner) - amount);
    SumPut(m.positions, owner, m.positions[owner] + amount);
  }

  lemma WithdrawKeeps(m: Market, owner: Pubkey, amount: nat)
    requires Inv(m) && WithdrawSy(m, owner, amount).Ok?
    ensures Inv(WithdrawSy(m, owner, amount).value) && WithdrawSy(m, owner, amount).value.rate == m.rate
  {
    SumPut(m.wallets, owner, Held(m, owner) + amount);
    SumPut(m.positions, owner, m.positions[owner] - amount);
  }

  lemma StepSolvent(m: Market, op: Op)
    requires Inv(m) && !op.PokeOp?
    ensures Inv(Step(m, op)) && Step(m, op).rate == m.rate
  {
    hide MintSy, RedeemSy, DepositSy, WithdrawSy;
    if Apply(m, op).Ok? {
      match op
      case MintOp(owner, base) => MintKeeps(m, owner, base);
      case RedeemOp(owner, sy) => RedeemKeeps(m, owner, sy);
      case InitOp(owner) => SumPut(m.positions, owner, 0);
      case DepositOp(owner, amount) => DepositKeeps(m, owner, amount);
      case WithdrawOp(owner, amount) => WithdrawKeeps(m, owner, amount);
    }
  }

  predicate ConstantRate(ops: seq<Op>) {
    forall k :: 0 <= k < |ops| ==> !ops[k].PokeOp?
  }

  /**
   While the rate is not poked, the vault is worth the whole supply at every moment, whoever mints, redeems
   and deposits.
   */
  lemma {:induction false} SolventAtConstantRate(m: Market, ops: seq<Op>)
    requires Inv(m) && ConstantRate(ops)
    ensures Inv(Run(m, ops)) && Run(m, ops).rate == m.rate
    decreases |ops|
  {
    if ops != [] {
      StepSolvent(m, ops[0]);
      hide Step, Inv;
      SolventAtConstantRate(Step(m, ops[0]), ops[1..]);
    }
  }

  /** A holder can redeem any SY held, and take back any SY deposited. */
  ghost predicate Redeemable(m: Market, owner: Pubkey, sy: nat) {
    && (sy <= Held(m, owner) ==> RedeemSy(m, owner, sy).Ok?)
    && (owner in m.positions && sy <= m.positions[owner] ==> WithdrawSy(m, owner, sy).Ok?)
  }

  lemma InvRedeemable(m: Market, owner: Pubkey, sy: nat)
    requires Inv(m) && m.rate > 0
    ensures Redeemable(m, owner, sy)
  {
    HeldWithin(m, owner);
    if sy <= m.sySupply {
      RedeemSolvent(m, sy);
    }
  }

  /** So from a new market everyone can redeem any SY held, and take back any SY deposited, at any point of the run. */
  lemma AlwaysRedeemable(rate: Number, ops: seq<Op>, owner: Pubkey, sy: nat)
    requires rate > 0 && ConstantRate(ops)
    ensures Redeemable(Run(NewMarket(rate), ops), owner, sy)
  {
    SolventAtConstantRate(NewMarket(rate), ops);
    hide Run, ConstantRate;
    InvRedeemable(Run(NewMarket(rate), ops), owner, sy);
  }

  /**
   After a poke the supply is still covered exactly when the vault is worth it at the new rate: the poke
   itself brings in no base.
   */
  lemma PokeSolventIff(m: Market, rate: Number)
    requires Inv(m) && PokeExchangeRate(m, rate).Ok?
    ensures Inv(PokeExchangeRate(m, rate).value) <==> m.sySupply * rate <= m.baseVault * ONE
  {
  }

  /** The largest rate at which the vault can pay for the whole supply. */
  function LargestRate(m: Market): Number
    requires m.sySupply > 0
  {
    ((m.baseVault + 1) * ONE - 1) / m.sySupply
  }

  lemma PaysIff(baseVault: nat, sy: nat, rate: Number)
    requires sy > 0
    ensures BaseOut(rate, sy) <= baseVault <==> rate <= ((baseVault + 1) * ONE - 1) / sy
  {
    BaseOutExact(rate, sy);
    var top := (baseVault + 1) * ONE - 1;
    DivBounds(top, sy);
    DivBounds(sy * rate, ONE);
    hide BaseOut;
    if rate <= top / sy {
      MulMono(rate, top / sy, sy);
      DivAtMost(sy * rate, ONE, baseVault);
    } else {
      MulMono(top / sy + 1, rate, sy);
      Distribute(sy, top / sy, 1);
      DivAtLeast(sy * rate, ONE, baseVault + 1);
    }
  }

  /**
   After any run at a constant rate, a poke leaves the vault able to pay for every amount of SY up to the
   supply exactly when the new rate is at most the largest one, which the old rate never exceeds.
   */
  lemma LargestPoke(rate: Number, ops: seq<Op>, newRate: Number)
    requires rate > 0 && ConstantRate(ops)
    ensures var m := Run(NewMarket(rate), ops);
            m.sySupply > 0 ==>
              && rate <= LargestRate(m)
              && (PokeExchangeRate(m, newRate).Ok? <==> rate <= newRate)
              && (newRate <= LargestRate(m)
                  <==> forall sy: nat :: sy <= m.sySupply ==> BaseOut(newRate, sy) <= m.baseVault)
  {
    SolventAtConstantRate(NewMarket(rate), ops);
    var m := Run(NewMarket(rate), ops);
    hide Run, ConstantRate;
    if m.sySupply > 0 {
      RedeemSolvent(m, m.sySupply);
      PaysIff(m.baseVault, m.sySupply, rate);
      PaysIff(m.baseVault, m.sySupply, newRate);
      hide BaseOut;
      if newRate <= LargestRate(m) {
        forall sy: nat | sy <= m.sySupply ensures BaseOut(newRate, sy) <= m.baseVault {
          BaseOutMono(newRate, sy, m.sySupply);
        }
      }
    }
  }

  lemma BaseOutMono(rate: Number, x: nat, y: nat)
    requires x <= y
    ensures BaseOut(rate, x) <= BaseOut(rate, y)
  {
    BaseOutExact(rate, x);
    BaseOutExact(rate, y);
    MulMono(x, y, rate);
    DivBounds(x * rate, ONE);
    hide BaseOut;
    DivAtLeast(y * rate, ONE, x * rate / ONE);
  }

  /** Every poke of the run is to a rate at which the vault is worth the supply of that moment. */
  ghost predicate PokesWithin(m: Market, ops: seq<Op>)
    decreases |ops|
  {
    ops != [] ==>
      && (ops[0].PokeOp? ==> m.sySupply * ops[0].rate <= m.baseVault * ONE)
      && PokesWithin(Step(m, ops[0]), ops[1..])
  }

  /** Then solvency survives the pokes too: through any such run everyone stays redeemable. */
  lemma SolventWithinPokes(m: Market, ops: seq<Op>)
    requires Inv(m) && PokesWithin(m, ops)
    ensures Inv(Run(m, ops))
    ensures m.rate > 0 ==> forall owner, sy :: Redeemable(Run(m, ops), owner, sy)
  {
    PokesKeepInv(m, ops);
    hide Run, PokesWithin, Redeemable;
    if m.rate > 0 {
      forall owner, sy ensures Redeemable(Run(m, ops), owner, sy) {
        InvRedeemable(Run(m, ops), owner, sy);
      }
    }
  }

  lemma {:induction false} PokesKeepInv(m: Market, ops: seq<Op>)
    requires Inv(m) && PokesWithin(m, ops)
    ensures Inv(Run(m, ops)) && Run(m, ops).rate >= m.rate
    decreases |ops|
  {
    if ops != [] {
      if ops[0].PokeOp? {
        if Apply(m, ops[0]).Ok? {
          PokeSolventIff(m, ops[0].rate);
        }
      } else {
        StepSolvent(m, ops[0]);
      }
      hide Inv, PokeExchangeRate;
      PokesKeepInv(Step(m, ops[0]), ops[1..]);
    }
  }

  /** One mint at a rate of one and a poke to two, and the supply can no longer all be redeemed. */
  lemma PokeCanOverdraw(m: Market)
    requires m == Step(Step(NewMarket(ONE), MintOp(0, 10)), PokeOp(2 * ONE))
    ensures Held(m, 0) == m.sySupply == 10 && RedeemSy(m, 0, 10) == Err(TransferFailed)
  {
    SyOutExact(ONE, 10);
    BaseOutExact(2 * ONE, 10);
  }
}

/**
 The adapter's accounts as its handlers update them in place; contracts promise the new state of accepted
 calls only.
 */
module SyAdapterProgram {
  import opened Foundations
  import opened Numbers
  import opened SyAdapter

  class SyMarketAccount {
    var exchangeRate: Number
    var baseVault: nat
    var sySupply: nat
    var poolEscrow: nat
    var wallets: map<Pubkey, nat>
    var positions: map<Pubkey, nat>

    function Data(): Market
      reads this
    {
      Market(exchangeRate, baseVault, sySupply, poolEscrow, wallets, positions)
    }

    constructor (rate: Number)
      ensures Data() == NewMarket(rate) && Inv(Data())
    {
      exchangeRate, baseVault, sySupply, poolEscrow := rate, 0, 0, 0;
      wallets, positions := map[], map[];
    }

    method MintSy(owner: Pubkey, amountBase: nat) returns (r: Result<nat, Error>)
      modifies this
      ensures match SyAdapter.MintSy(old(Data()), owner, amountBase)
              case Err(e) => r == Err(e)
              case Ok(m) => r == Ok(SyOut(old(exchangeRate), amountBase)) && Data() == m
      ensures r.Ok? && Inv(old(Data())) ==> Inv(Data())
    {
      hide SyOut, Inv;
      ghost var before := Data();
      if exchangeRate == 0 {
        return Err(InvalidExchangeRate);
      }
      if baseVault + amountBase > U64_MAX {
        return Err(TransferFailed);
      }
      baseVault := baseVault + amountBase;
      var out := SyOut(exchangeRate, amountBase);
      if sySupply + out > U64_MAX {
        return Err(TransferFailed);
      }
      sySupply := sySupply + out;
      wallets := wallets[owner := (if owner in wallets then wallets[owner] else 0) + out];
      if Inv(before) {
        StepSolvent(before, MintOp(owner, amountBase));
      }
      r := Ok(out);
    }

    method RedeemSy(owner: Pubkey, amountSy: nat) returns (r: Result<nat, Error>)
      modifies this
      ensures match SyAdapter.RedeemSy(old(Data()), owner, amountSy)
              case Err(e) => r == Err(e)
              case Ok(m) => r == Ok(BaseOut(old(exchangeRate), amountSy)) && Data() == m
      ensures r.Ok? && Inv(old(Data())) ==> Inv(Data())
    {
      hide BaseOut, Inv;
      ghost var before := Data();
      if exchangeRate == 0 {
        return Err(InvalidExchangeRate);
      }
      var held := if owner in wallets then wallets[owner] else 0;
      if held < amountSy || sySupply < amountSy {
        return Err(InsufficientBalance);
      }
      wallets := wallets[owner := held - amountSy];
      sySupply := sySupply - amountSy;
      var out := BaseOut(exchangeRate, amountSy);
      if baseVault < out {
        return Err(TransferFailed);
      }
      baseVault := baseVault - out;
      if Inv(before) {
        StepSolvent(before, RedeemOp(owner, amountSy));
      }
      r := Ok(out);
    }

    method DepositSy(owner: Pubkey, amount: nat) returns (r: Result<(), Error>)
      modifies this
      ensures match SyAdapter.DepositSy(old(Data()), owner, amount)
              case Err(e) => r == Err(e)
              case Ok(m) => r == Ok(()) && Data() == m
      ensures r.Ok? && Inv(old(Data())) ==> Inv(Data())
    {
      hide Inv;
      ghost var before := Data();
      if owner !in positions {
        return Err(AccountMissing);
      }
      if amount > 0 {
        var held := if owner in wallets then wallets[owner] else 0;
        if held < amount {
          return Err(TransferFailed);
        }
        wallets := wallets[owner := held - amount];
        poolEscrow := poolEscrow + amount;
        if positions[owner] + amount > U64_MAX {
          return Err(Overflow);
        }
        positions := positions[owner := positions[owner] + amount];
      }
      if Inv(before) {
        StepSolvent(before, DepositOp(owner, amount));
      }
      r := Ok(());
    }

    method WithdrawSy(owner: Pubkey, amount: nat) returns (r: Result<(), Error>)
      modifies this
      ensures match SyAdapter.WithdrawSy(old(Data()), owner, amount)
              case Err(e) => r == Err(e)
              case Ok(m) => r == Ok(()) && Data() == m
      ensures r.Ok? && Inv(old(Data())) ==> Inv(Data())
    {
      hide Inv;
      ghost var before := Data();
      if owner !in positions {
        return Err(AccountMissing);
      }
      if amount > 0 {
        if positions[owner] < amount {
          return Err(InsufficientBalance);
        }
        positions := positions[owner := positions[owner] - amount];
        if poolEscrow < amount {
          return Err(TransferFailed);
        }
        poolEscrow := poolEscrow - amount;
        wallets := wallets[owner := (if owner in wallets then wallets[owner] else 0) + amount];
      }
      if Inv(before) {
        StepSolvent(before, WithdrawOp(owner, amount));
      }
      r := Ok(());
    }

    method PokeExchangeRate(newRate: Number) returns (r: Result<(), Error>)
      modifies this`exchangeRate
      ensures r.Ok? <==> 0 < newRate && old(exchangeRate) <= newRate
      ensures exchangeRate == if r.Ok? then newRate else old(exchangeRate)
    {
      if newRate == 0 {
        return Err(InvalidExchangeRate);
      }
      if newRate < exchangeRate {
        return Err(ExchangeRateRegression);
      }
      exchangeRate := newRate;
      r := Ok(());
    }
  }
}
