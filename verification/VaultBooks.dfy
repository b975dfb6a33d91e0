/** The vault's balances read off the operations of a run: each user's YT and interest, the escrow and the PT. */
module VaultBooks {
  import opened Foundations
  import opened MapSums
  import opened Numbers
  import opened Vaults
  import opened VaultLedger
  import opened VaultSolvency
  import opened VaultMaturity
  import opened VaultTheorems

  function Holding(s: State, user: Pubkey): YieldPosition {
    if user in s.users then s.users[user] else YieldPosition(0, 0, 0)
  }

  // ---------- What an operation moves ----------

  /** The PT and YT an accepted strip mints: the SY at the rate, rounded down. */
  function Minted(s: State, op: Op): int {
    if op.StripOp? && Apply(s, op).Ok? then op.amount * op.rate / ONE else 0
  }

  /** The PT an accepted merge burns. */
  function Burned(s: State, op: Op): nat {
    if op.MergeOp? && Apply(s, op).Ok? then op.amount else 0
  }

  /** The YT it burns with them, which is none after maturity. */
  function YtBurned(s: State, op: Op): nat {
    if op.MergeOp? && IsActive(s.vault, op.now) then Burned(s, op) else 0
  }

  function Deposited(s: State, op: Op, user: Pubkey): nat {
    if op.DepositOp? && op.user == user && Apply(s, op).Ok? then op.amount else 0
  }

  function Withdrawn(s: State, op: Op, user: Pubkey): nat {
    if op.WithdrawOp? && op.user == user && Apply(s, op).Ok? then op.amount else 0
  }

  /** The interest an accepted collection pays a user. */
  function Collected(s: State, op: Op, user: Pubkey): nat {
    if op.CollectOp? && op.user == user && Apply(s, op).Ok? then op.amount else 0
  }

  function OwnOp(op: Op, user: Pubkey): bool {
    match op
    case StageOp(_, _, u) => u == user
    case DepositOp(_, _, u, _) => u == user
    case WithdrawOp(_, _, u, _) => u == user
    case CollectOp(u, _) => u == user
    case _ => false
  }

  /** The vault at whose rates an operation credits its user. */
  function CreditingVault(s: State, op: Op): Vault {
    match op
    case StageOp(rate, now, _) => UpdateFromSyState(s.vault, rate, now)
    case DepositOp(rate, now, _, _) => UpdateFromSyState(s.vault, rate, now)
    case WithdrawOp(rate, now, _, _) => UpdateFromSyState(s.vault, rate, now)
    case _ => s.vault
  }

  /** The interest an accepted operation credits to its own user. */
  function Credited(s: State, op: Op, user: Pubkey): nat {
    if OwnOp(op, user) && user in s.users && Apply(s, op).Ok? then EarnedBy(CreditingVault(s, op), s.users[user]) else 0
  }

  // ---------- One operation ----------

  /** Neither an update nor a credit moves YT, PT or escrowed SY. */
  lemma UpdateMovesNothing(s: State, rate: Number, now: nat)
    requires UpdateYield(s, rate, now).Ok?
    ensures var s1 := UpdateYield(s, rate, now).value;
            && s1.users == s.users && s1.robot.yt == s.robot.yt
            && s1.vault.ptSupply == s.vault.ptSupply && s1.vault.totalSy == s.vault.totalSy
            && s1.vault.startTs == s.vault.startTs && s1.vault.duration == s.vault.duration
            && s1.vault.maxPySupply == s.vault.maxPySupply && s1.vault.lastSeen == rate
            && forall p :: EarnedBy(s1.vault, p) == EarnedBy(UpdateFromSyState(s.vault, rate, now), p)
  {
    hide SyBackingForPt, Skim, EarnedSy, ScaleToCurrent;
  }

  lemma EarnMovesNothing(s: State, user: Pubkey)
    requires EarnUser(s, user).Ok?
    ensures user in s.users
    ensures var s1, p := EarnUser(s, user).value, s.users[user];
            && s1.robot == s.robot && s1.users == s.users[user := s1.users[user]]
            && s1.users[user].yt == p.yt && s1.users[user].staged == p.staged + EarnedBy(s.vault, p)
            && s1.vault == s.vault.(uncollected := s1.vault.uncollected)
  {
    hide EarnedSy, ScaleToCurrent;
  }

  /** An operation on a user's YT or interest moves that user's position only, YT against the vault's own. */
  lemma UserOpMoves(s: State, op: Op, user: Pubkey)
    requires (op.StageOp? || op.DepositOp? || op.WithdrawOp? || op.CollectOp?) && Apply(s, op).Ok?
    ensures var s', p, q := Apply(s, op).value, Holding(s, user), Holding(Apply(s, op).value, user);
            && q.yt == p.yt + Deposited(s, op, user) - Withdrawn(s, op, user)
            && q.staged == p.staged + Credited(s, op, user) - Collected(s, op, user)
            && s'.robot.yt + Deposited(s, op, op.user) == s.robot.yt + Withdrawn(s, op, op.user)
            && s'.vault.ptSupply == s.vault.ptSupply
            && s'.vault.totalSy + Collected(s, op, op.user) == s.vault.totalSy
  {
    hide UpdateYield, EarnUser, SyBackingForPt, EarnedBy, UpdateFromSyState;
    match op
    case StageOp(rate, now, u) =>
      UpdateMovesNothing(s, rate, now);
      EarnMovesNothing(UpdateYield(s, rate, now).value, u);
    case DepositOp(rate, now, u, _) =>
      UpdateMovesNothing(s, rate, now);
      EarnMovesNothing(UpdateYield(s, rate, now).value, u);
    case WithdrawOp(rate, now, u, _) =>
      UpdateMovesNothing(s, rate, now);
      EarnMovesNothing(UpdateYield(s, rate, now).value, u);
    case CollectOp(u, _) =>
      EarnMovesNothing(s, u);
  }

  lemma StripMints(s: State, op: Op)
    requires op.StripOp? && Apply(s, op).Ok?
    ensures var s' := Apply(s, op).value;
            && s'.users == s.users && s'.robot.yt == s.robot.yt + Minted(s, op)
            && s'.vault.ptSupply == s.vault.ptSupply + Minted(s, op)
            && s'.vault.totalSy == s.vault.totalSy + op.amount
  {
    UpdateMovesNothing(s, op.rate, op.now);
    PyExact(op.rate, op.amount);
    hide UpdateYield, SyToPy, SyBackingForPt, EarnedBy;
  }

  lemma PyExact(rate: Number, amountSy: nat)
    ensures SyToPy(rate, amountSy) == amountSy * rate / ONE
  {
    assert Mul(FromNatural(amountSy), rate) == Mul(rate, FromNatural(amountSy)) by {
      assert FromNatural(amountSy) * rate == rate * FromNatural(amountSy);
    }
    FloorMulNatural(rate, amountSy);
    assert rate * amountSy == amountSy * rate;
  }

  /** What a merge pays, when it is accepted. */
  function MergePaid(s: State, op: Op): nat {
    if op.MergeOp? && Apply(s, op).Ok? && UpdateYield(s, op.rate, op.now).Ok?
    then MergedSy(UpdateYield(s, op.rate, op.now).value.vault, op.amount)
    else 0
  }

  lemma MergeBurns(s: State, op: Op)
    requires op.MergeOp? && Apply(s, op).Ok?
    ensures var s' := Apply(s, op).value;
            && s'.users == s.users && s'.robot.yt + YtBurned(s, op) == s.robot.yt
            && s'.vault.ptSupply + Burned(s, op) == s.vault.ptSupply
            && s'.vault.totalSy + MergePaid(s, op) == s.vault.totalSy
  {
    UpdateMovesNothing(s, op.rate, op.now);
    hide UpdateYield, MergedSy, SyBackingForPt, EarnedBy;
  }

  /** The SY an operation brings into the escrow, and what it pays out. */
  function SyIn(s: State, op: Op): nat {
    if op.StripOp? && Apply(s, op).Ok? then op.amount else 0
  }

  function SyPaid(s: State, op: Op): nat {
    if Apply(s, op).Err? then 0
    else
      match op
      case MergeOp(_, _, _) => MergePaid(s, op)
      case CollectOp(_, amount) => amount
      case CollectRobotOp(amount) => amount
      case CollectTreasuryOp(amount) => amount
      case _ => 0
  }

  /**
   What the treasury gains by an update: after maturity, and only at a rate above every one before, the part of
   the SY left to PT by which the rate has risen since it was last seen.
   */
  function SkimAt(v: Vault, rate: Number, now: nat): int {
    if IsExpired(v, now) && v.allTimeHigh < rate && v.lastSeen < rate
    then Max(0, Free(v)) * (rate - v.lastSeen) / rate
    else 0
  }

  function Skimmed(s: State, op: Op): int {
    if Apply(s, op).Err? then 0
    else
      match op
      case StripOp(rate, now, _) => SkimAt(s.vault, rate, now)
      case MergeOp(rate, now, _) => SkimAt(s.vault, rate, now)
      case StageOp(rate, now, _) => SkimAt(s.vault, rate, now)
      case DepositOp(rate, now, _, _) => SkimAt(s.vault, rate, now)
      case WithdrawOp(rate, now, _, _) => SkimAt(s.vault, rate, now)
      case _ => 0
  }

  function OwnCredited(s: State, op: Op): nat {
    if Apply(s, op).Err? then 0
    else
      match op
      case StripOp(rate, now, _) => EarnedBy(UpdateFromSyState(s.vault, rate, now), s.robot)
      case MergeOp(rate, now, _) => EarnedBy(UpdateFromSyState(s.vault, rate, now), s.robot)
      case StageOp(rate, now, _) => EarnedBy(UpdateFromSyState(s.vault, rate, now), s.robot)
      case DepositOp(rate, now, _, _) => EarnedBy(UpdateFromSyState(s.vault, rate, now), s.robot)
      case WithdrawOp(rate, now, _, _) => EarnedBy(UpdateFromSyState(s.vault, rate, now), s.robot)
      case _ => 0
  }

  lemma SkimExact(v: Vault, rate: Number, now: nat)
    ensures Skim(v, rate, now) == SkimAt(v, rate, now)
  {
    ActiveIsFree(v);
    if IsExpired(v, now) && v.allTimeHigh < rate && v.lastSeen < rate {
      var d, k := ActiveSy(v) * (rate - v.lastSeen), Appreciation(v.lastSeen, rate, ActiveSy(v));
      AppreciationBounds(v.lastSeen, rate, ActiveSy(v));
      hide Appreciation, ActiveSy;
      Distribute(rate, k, 1);
      DivIs(d, rate, k);
    }
  }

  /** The prologue of an operation fills the treasury by the skim and the vault's own interest by its credit. */
  lemma UpdateEarns(s: State, rate: Number, now: nat)
    requires UpdateYield(s, rate, now).Ok?
    ensures var s1 := UpdateYield(s, rate, now).value;
            && s1.vault.treasury == s.vault.treasury + SkimAt(s.vault, rate, now)
            && s1.robot.staged == s.robot.staged + EarnedBy(UpdateFromSyState(s.vault, rate, now), s.robot)
  {
    SkimExact(s.vault, rate, now);
    hide SyBackingForPt, Skim, SkimAt, EarnedSy, ScaleToCurrent;
  }

  // ---------- The books ----------

  /**
   What the books follow: a user's YT and staged interest, all YT, the PT supply, the escrow, the treasury and the
   interest staged for the vault's own position.
   */
  datatype Account = Yt(user: Pubkey) | Interest(user: Pubkey) | AllYt | Pt | Escrow | Treasury | OwnInterest

  ghost function Value(acc: Account, s: State): int {
    match acc
    case Yt(user) => Holding(s, user).yt
    case Interest(user) => Holding(s, user).staged
    case AllYt => YtSupply(s)
    case Pt => s.vault.ptSupply
    case Escrow => s.vault.totalSy
    case Treasury => s.vault.treasury
    case OwnInterest => s.robot.staged
  }

  function Inflow(acc: Account, s: State, op: Op): int {
    match acc
    case Yt(user) => Deposited(s, op, user)
    case Interest(user) => Credited(s, op, user)
    case AllYt => Minted(s, op)
    case Pt => Minted(s, op)
    case Escrow => SyIn(s, op)
    case Treasury => Skimmed(s, op)
    case OwnInterest => OwnCredited(s, op)
  }

  function Outflow(acc: Account, s: State, op: Op): int {
    match acc
    case Yt(user) => Withdrawn(s, op, user)
    case Interest(user) => Collected(s, op, user)
    case AllYt => YtBurned(s, op)
    case Pt => Burned(s, op)
    case Escrow => SyPaid(s, op)
    case Treasury => if op.CollectTreasuryOp? && Apply(s, op).Ok? then op.amount else 0
    case OwnInterest => if op.CollectRobotOp? && Apply(s, op).Ok? then op.amount else 0
  }

  /** What went in over a run, and what went out. */
  ghost function TotalIn(acc: Account, w: World, ops: seq<Op>): int
    decreases |ops|
  {
    if ops == [] then 0 else Inflow(acc, w.s, ops[0]) + TotalIn(acc, Step(w, ops[0]), ops[1..])
  }

  ghost function TotalOut(acc: Account, w: World, ops: seq<Op>): int
    decreases |ops|
  {
    if ops == [] then 0 else Outflow(acc, w.s, ops[0]) + TotalOut(acc, Step(w, ops[0]), ops[1..])
  }

  lemma OnlyOwnPosition(s: State, op: Op)
    requires (op.StageOp? || op.DepositOp? || op.WithdrawOp? || op.CollectOp?) && Apply(s, op).Ok?
    ensures op.user in s.users
    ensures Apply(s, op).value.users == s.users[op.user := Holding(Apply(s, op).value, op.user)]
  {
    hide UpdateYield, EarnUser, SyBackingForPt, EarnedBy, UpdateFromSyState;
    match op
    case StageOp(rate, now, u) =>
      UpdateMovesNothing(s, rate, now);
      EarnMovesNothing(UpdateYield(s, rate, now).value, u);
    case DepositOp(rate, now, u, _) =>
      UpdateMovesNothing(s, rate, now);
      EarnMovesNothing(UpdateYield(s, rate, now).value, u);
    case WithdrawOp(rate, now, u, _) =>
      UpdateMovesNothing(s, rate, now);
      EarnMovesNothing(UpdateYield(s, rate, now).value, u);
    case CollectOp(u, _) =>
      EarnMovesNothing(s, u);
  }

  /** One operation's entry in the books. */
  ghost predicate Entered(acc: Account, s: State, op: Op, s': State) {
    Value(acc, s') == Value(acc, s) + Inflow(acc, s, op) - Outflow(acc, s, op)
  }

  lemma UserOpEntered(s: State, op: Op, acc: Account)
    requires !acc.Treasury? && !acc.OwnInterest?
    requires (op.StageOp? || op.DepositOp? || op.WithdrawOp? || op.CollectOp?) && Apply(s, op).Ok?
    ensures Entered(acc, s, op, Apply(s, op).value)
  {
    if acc.Yt? || acc.Interest? {
      UserOpMoves(s, op, acc.user);
      hide Apply, EarnedBy, CreditingVault, Holding;
    } else {
      UserOpMoves(s, op, op.user);
      YtKept(s, op);
      hide Apply, EarnedBy, CreditingVault, Holding, YtSupply;
    }
  }

  /** Deposits and withdrawals only move YT between a user and the vault's own position. */
  lemma YtKept(s: State, op: Op)
    requires (op.StageOp? || op.DepositOp? || op.WithdrawOp? || op.CollectOp?) && Apply(s, op).Ok?
    ensures YtSupply(Apply(s, op).value) == YtSupply(s)
  {
    UserOpMoves(s, op, op.user);
    OnlyOwnPosition(s, op);
    PutUser(s.users, op.user, Holding(Apply(s, op).value, op.user));
    hide Apply, Credited, Collected, YtOf, ClaimsOf, StagedOf, Claim;
  }

  /** The entries of the treasury and of the vault's own interest. */
  lemma CreatorEntered(s: State, op: Op, acc: Account)
    requires (acc.Treasury? || acc.OwnInterest?) && Apply(s, op).Ok?
    ensures Entered(acc, s, op, Apply(s, op).value)
  {
    hide UpdateYield, EarnUser, SyBackingForPt, EarnedBy, UpdateFromSyState, SkimAt, SyToPy, MergedSy;
    match op
    case StripOp(rate, now, _) => UpdateEarns(s, rate, now);
    case MergeOp(rate, now, _) => UpdateEarns(s, rate, now);
    case StageOp(rate, now, u) =>
      UpdateEarns(s, rate, now);
      EarnMovesNothing(UpdateYield(s, rate, now).value, u);
    case DepositOp(rate, now, u, _) =>
      UpdateEarns(s, rate, now);
      EarnMovesNothing(UpdateYield(s, rate, now).value, u);
    case WithdrawOp(rate, now, u, _) =>
      UpdateEarns(s, rate, now);
      EarnMovesNothing(UpdateYield(s, rate, now).value, u);
    case CollectOp(u, _) => EarnMovesNothing(s, u);
    case _ =>
  }

  lemma OpenEntered(s: State, op: Op, acc: Account)
    requires op.InitializeOp? && Apply(s, op).Ok?
    ensures Entered(acc, s, op, Apply(s, op).value)
  {
    PutUser(s.users, op.user, YieldPosition(0, 0, 0));
    hide YtOf, ClaimsOf, StagedOf, Claim;
  }

  lemma OpEntered(s: State, op: Op, acc: Account)
    requires Apply(s, op).Ok? && !acc.Treasury? && !acc.OwnInterest?
    ensures Entered(acc, s, op, Apply(s, op).value)
  {
    match op
    case StripOp(_, _, _) =>
      StripMints(s, op);
      hide Apply, YtOf;
    case MergeOp(_, _, _) =>
      MergeBurns(s, op);
      hide Apply, YtOf;
    case InitializeOp(_) => OpenEntered(s, op, acc); hide Apply, Entered;
    case CollectRobotOp(_) => hide YtOf;
    case CollectTreasuryOp(_) => hide YtOf;
    case _ => UserOpEntered(s, op, acc); hide Apply, Entered;
  }

  // ---------- Runs ----------

  lemma StepEntered(w: World, op: Op, acc: Account)
    ensures Entered(acc, w.s, op, Step(w, op).s)
  {
    if Apply(w.s, op).Ok? {
      if acc.Treasury? || acc.OwnInterest? {
        CreatorEntered(w.s, op, acc);
      } else {
        OpEntered(w.s, op, acc);
      }
      hide Entered, Apply, OpDust;
    } else {
      hide Apply, OpDust, YtOf, Holding;
    }
  }

  lemma {:induction false} RunBooked(w: World, ops: seq<Op>, acc: Account)
    ensures Value(acc, Run(w, ops).s) == Value(acc, w.s) + TotalIn(acc, w, ops) - TotalOut(acc, w, ops)
    decreases |ops|
  {
    if ops != [] {
      StepEntered(w, ops[0], acc);
      RunBooked(Step(w, ops[0]), ops[1..], acc);
      hide Step, Value, Inflow, Outflow;
    }
  }

  /**
   From a new vault, over any run, before and after maturity: a user's YT is what that user deposited less what that
   user withdrew, and the interest staged is what was credited to that user less what was collected, whatever
   others do. All YT, the vault's own included, is what strips minted less what merges burned, PT likewise, and
   the escrow holds what strips brought less what merges and collections paid. The treasury gains by updates at a
   new high after maturity alone, and the creator's collections take from it and from the vault's own interest.
   */
  lemma BooksAgree(startTs: nat, duration: nat, maxPySupply: nat, ops: seq<Op>, acc: Account)
    ensures var g := Genesis(startTs, duration, maxPySupply);
            Value(acc, Run(g, ops).s) == TotalIn(acc, g, ops) - TotalOut(acc, g, ops)
  {
    var g := Genesis(startTs, duration, maxPySupply);
    RunBooked(g, ops, acc);
    assert YtOf(g.s.users) == map[];
    hide Run, TotalIn, TotalOut;
  }

  // ---------- What a credit is worth ----------

  /**
   Outside emergency mode a position behind the final rate is credited what its YT was worth at its own index over
   what it is worth at the final rate, rounded down by less than one SY; after maturity the same value at the
   current rate, again short by less than one SY and 1e-12 of the interest.
   */
  lemma CreditWorth(v: Vault, p: YieldPosition)
    requires !Emergency(v) && 0 < p.index < v.final
    ensures var earned, out := EarnedSy(p.yt, p.index, v.final), EarnedBy(v, p);
            && ONE * earned <= p.yt * Recip(p.index) - p.yt * Recip(v.final) < ONE * earned + ONE
            && (v.lastSeen <= v.final ==> out == earned)
            && (v.lastSeen > v.final ==>
                  earned * v.final * ONE < (out + 1) * v.lastSeen * ONE + earned * v.lastSeen)
  {
    VaultLedger.EarnedBounds(p.yt, p.index, v.final);
    var earned := EarnedSy(p.yt, p.index, v.final);
    hide EarnedSy, Recip, ScaleToCurrent;
    if v.lastSeen > v.final {
      ScaledWorth(earned, v.final, v.lastSeen);
    } else {
      ScaleSame(earned, v.final, v.lastSeen);
    }
  }

  lemma ScaleSame(e: nat, f: Number, c: Number)
    requires c <= f
    ensures ScaleToCurrent(e, f, c) == e
  {
  }

  lemma ScaledWorth(e: nat, f: Number, c: Number)
    requires 0 < f < c
    ensures e * f * ONE < (ScaleToCurrent(e, f, c) + 1) * c * ONE + e * c
  {
    var r, out := Div(f, c), ScaleToCurrent(e, f, c);
    DivBounds(f * ONE + HALF, c);
    FloorMulNatural(r, e);
    DivBounds(r * e, ONE);
    hide Div, Floor, Mul, ScaleToCurrent;
    WorthProduct(e, f, c, r, out);
  }

  lemma WorthProduct(e: nat, f: nat, c: nat, r: nat, out: nat)
    requires c > 0 && f * ONE + HALF < c * r + c && r * e < ONE * out + ONE
    ensures e * f * ONE < (out + 1) * c * ONE + e * c
  {
    MulMono(f * ONE, c * r + c, e);
    MulMono(r * e + 1, ONE * out + ONE, c);
    assert e * (c * r + c) == c * (r * e) + e * c;
    assert e * (f * ONE) == e * f * ONE;
    assert c * (ONE * out + ONE) == (out + 1) * c * ONE;
  }

  /** The SY set aside for PT is the most that the PT are worth and the active SY covers. */
  lemma BackingExactIff(rate: Number, ptSupply: nat, active: nat, k: nat)
    requires rate > 0
    ensures k <= SyBackingForPt(rate, ptSupply, active) <==> k * rate <= ptSupply * ONE && k <= active
  {
    FloorDivExact(FromNatural(ptSupply), rate);
    hide Floor, Div;
    if k * rate <= ptSupply * ONE {
      DivAtLeast(ptSupply * ONE, rate, k);
    } else {
      DivAtMost(ptSupply * ONE, rate, k - 1);
    }
  }

  // ---------- What a merge pays ----------

  /** A merge pays its share of the PT backing, rounded down by less than one SY and 1e-12 SY a token. */
  lemma MergePaysShare(v: Vault, amountPy: nat)
    requires v.ptSupply > 0
    ensures MergedSy(v, amountPy) * v.ptSupply <= amountPy * v.syForPt
    ensures amountPy * v.syForPt * ONE
            < MergedSy(v, amountPy) * v.ptSupply * ONE + v.ptSupply * ONE + amountPy * v.ptSupply
  {
    var r, out := FromRatio(v.syForPt, v.ptSupply), MergedSy(v, amountPy);
    FromRatioIsFloor(v.syForPt, v.ptSupply);
    DivBounds(v.syForPt * ONE, v.ptSupply);
    assert Mul(FromNatural(amountPy), r) == Mul(r, FromNatural(amountPy)) by {
      assert FromNatural(amountPy) * r == r * FromNatural(amountPy);
    }
    FloorMulNatural(r, amountPy);
    DivBounds(r * amountPy, ONE);
    hide FromRatio, Floor, Mul;
    ShareProduct(r, out, amountPy, v.syForPt, v.ptSupply);
  }

  lemma ShareProduct(r: nat, out: int, amount: nat, sy: nat, pt: nat)
    requires pt > 0 && pt * r <= sy * ONE < pt * r + pt && ONE * out <= r * amount < ONE * out + ONE
    ensures out * pt <= amount * sy && amount * sy * ONE < out * pt * ONE + pt * ONE + amount * pt
  {
    MulMono(pt * r, sy * ONE, amount);
    MulMono(sy * ONE, pt * r + pt, amount);
    MulMono(ONE * out, r * amount, pt);
    MulMono(r * amount + 1, ONE * out + ONE, pt);
    assert amount * (pt * r) == pt * (r * amount);
  }

  // ---------- What each handler accepts ----------

  /** The common prologue goes through exactly when the final rate it leaves is not zero. */
  lemma UpdateAcceptedIff(s: State, rate: Number, now: nat)
    ensures UpdateYield(s, rate, now).Ok? <==> (if IsActive(s.vault, now) then rate else s.vault.final) > 0
    ensures UpdateYield(s, rate, now).Ok? ==>
              (Emergency(UpdateYield(s, rate, now).value.vault) <==> rate < s.vault.allTimeHigh)
    ensures UpdateYield(s, rate, now).Ok? ==> UpdateYield(s, rate, now).value.vault.final > 0
  {
    hide SyBackingForPt, EarnedBy, Skim;
  }

  /** Strips are accepted while the vault is active, at no less than the highest rate seen, up to the supply maximum. */
  lemma StripAcceptedIff(s: State, rate: Number, now: nat, amountSy: nat)
    ensures Strip(s, rate, now, amountSy).Ok?
            <==> && IsActive(s.vault, now) && rate > 0 && s.vault.allTimeHigh <= rate
                 && s.vault.ptSupply + amountSy * rate / ONE <= s.vault.maxPySupply
  {
    UpdateAcceptedIff(s, rate, now);
    if UpdateYield(s, rate, now).Ok? {
      UpdateMovesNothing(s, rate, now);
    }
    PyExact(rate, amountSy);
    hide UpdateYield, SyToPy, EarnedBy, SyBackingForPt;
  }

  /** Merges too, and after maturity without YT; the PT must exist and the escrow cover what they redeem. */
  lemma MergeAcceptedIff(s: State, rate: Number, now: nat, amountPy: nat)
    ensures Merge(s, rate, now, amountPy).Ok?
            <==> && rate > 0 && s.vault.allTimeHigh <= rate && amountPy <= s.vault.ptSupply
                 && (if IsActive(s.vault, now) then amountPy <= s.robot.yt else s.vault.final > 0)
                 && MergedSy(UpdateYieldOr(s, rate, now).vault, amountPy) <= s.vault.totalSy
  {
    UpdateAcceptedIff(s, rate, now);
    if UpdateYield(s, rate, now).Ok? {
      UpdateMovesNothing(s, rate, now);
    }
    hide UpdateYield, MergedSy, EarnedBy, SyBackingForPt;
  }

  /** The state after the prologue, or the state before it if that fails. */
  function UpdateYieldOr(s: State, rate: Number, now: nat): State {
    match UpdateYield(s, rate, now)
    case Ok(s1) => s1
    case Err(_) => s
  }

  /** The operations on a user's YT and interest, each accepted exactly under its own guards. */
  lemma UserOpsAcceptedIff(s: State, rate: Number, now: nat, user: Pubkey, amount: nat)
    ensures StageYield(s, rate, now, user).Ok?
            <==> && user in s.users && s.vault.allTimeHigh <= rate
                 && (if IsActive(s.vault, now) then rate else s.vault.final) > 0
    ensures DepositYt(s, rate, now, user, amount).Ok?
            <==> && user in s.users && IsActive(s.vault, now) && rate > 0 && s.vault.allTimeHigh <= rate
                 && amount <= s.robot.yt
    ensures WithdrawYt(s, rate, now, user, amount).Ok?
            <==> user in s.users && IsActive(s.vault, now) && rate > 0 && amount <= s.users[user].yt
  {
    UpdateAcceptedIff(s, rate, now);
    if UpdateYield(s, rate, now).Ok? {
      UpdateMovesNothing(s, rate, now);
      var s1 := UpdateYield(s, rate, now).value;
      EarnAcceptedIff(s1, user);
      if EarnUser(s1, user).Ok? {
        EarnMovesNothing(s1, user);
      }
    }
    hide UpdateYield, EarnUser, EarnedBy, SyBackingForPt;
  }

  lemma EarnAcceptedIff(s: State, user: Pubkey)
    ensures EarnUser(s, user).Ok? <==> user in s.users && s.vault.final > 0
  {
    hide EarnedBy;
  }

  /** Interest can be collected exactly up to what was staged before, as far as the escrow reaches. */
  lemma CollectAcceptedIff(s: State, user: Pubkey, amount: nat)
    ensures CollectInterest(s, user, amount).Ok?
            <==> && user in s.users && s.vault.final > 0 && amount <= s.users[user].staged
                 && amount <= s.vault.totalSy && amount <= s.vault.uncollected + EarnedBy(s.vault, s.users[user])
  {
    EarnAcceptedIff(s, user);
    if EarnUser(s, user).Ok? {
      EarnMovesNothing(s, user);
      EarnRecords(s, user);
    }
    hide EarnUser, EarnedBy;
  }

  lemma EarnRecords(s: State, user: Pubkey)
    requires EarnUser(s, user).Ok?
    ensures user in s.users
    ensures EarnUser(s, user).value.vault.uncollected == s.vault.uncollected + EarnedBy(s.vault, s.users[user])
  {
    hide EarnedSy, ScaleToCurrent;
  }
}
