/** Concrete runs on which a stated vault invariant does not hold. */
module VaultExamples {
  import opened Foundations
  import opened Numbers
  import opened Vaults
  import opened VaultLedger
  import opened VaultSolvency
  import opened VaultTheorems

  /** The program's own state along a run, without the history. */
  function States(s: State, ops: seq<Op>): State
    decreases |ops|
  {
    if ops == [] then s
    else States(match Apply(s, ops[0]) case Ok(s') => s' case Err(_) => s, ops[1..])
  }

  lemma {:induction false} RunStates(w: World, ops: seq<Op>)
    ensures Run(w, ops).s == States(w.s, ops)
    decreases |ops|
  {
    if ops != [] {
      hide Apply, OpDust;
      RunStates(Step(w, ops[0]), ops[1..]);
    }
  }

  /** `states[k + 1]` is what the k-th operation makes of `states[k]`. */
  ghost predicate Chain(states: seq<State>, ops: seq<Op>) {
    && |states| == |ops| + 1
    && forall k :: 0 <= k < |ops| ==> Apply(states[k], ops[k]) == Ok(states[k + 1])
  }

  lemma {:induction false} ChainEnds(states: seq<State>, ops: seq<Op>)
    requires Chain(states, ops)
    ensures States(states[0], ops) == states[|ops|]
  {
    hide Apply;
    if ops != [] {
      ChainEnds(states[1..], ops[1..]);
    }
  }

  const DAY: nat := 86_400
  const CAP: nat := 0xFFFF_FFFF_FFFF_FFFF

  function Start(): State {
    NewVault(0, DAY, CAP)
  }

  lemma UpdateYieldIs(s: State, rate: Number, now: nat, v1: Vault)
    requires v1 == s.vault.(treasury := s.vault.treasury + Skim(s.vault, rate, now), lastSeen := rate,
                            allTimeHigh := Max(rate, s.vault.allTimeHigh),
                            final := if IsActive(s.vault, now) then rate else s.vault.final,
                            syForPt := SyBackingForPt(rate, s.vault.ptSupply, ActiveSy(v1)))
    requires v1.final > 0 && !Emergency(v1)
    ensures UpdateYield(s, rate, now) ==
            Ok(s.(vault := v1.(uncollected := v1.uncollected + EarnedBy(v1, s.robot)),
                  robot := s.robot.(staged := s.robot.staged + EarnedBy(v1, s.robot), index := v1.final)))
  {
    hide SyBackingForPt, EarnedBy, Skim;
    assert UpdateFromSyState(s.vault, rate, now) == v1;
  }

  // ---------- Single operations on simple states ----------

  lemma NoSkim(v: Vault, rate: Number, now: nat)
    requires !IsExpired(v, now)
    ensures Skim(v, rate, now) == 0
  {
  }

  lemma NothingEarned(v: Vault, p: YieldPosition)
    requires p.index >= v.final
    ensures EarnedBy(v, p) == 0
  {
  }

  /** A position without YT, or never credited before, earns nothing. */
  lemma NothingHeld(v: Vault, p: YieldPosition)
    requires p.yt == 0 || p.index == 0
    ensures EarnedBy(v, p) == 0
  {
    if v.lastSeen > v.final {
      FloorMulNatural(Div(v.final, v.lastSeen), 0);
    }
  }

  /** The vault after an update at a rate that is a new, or the same, all-time high, while it is active. */
  function Raised(v: Vault, rate: Number): Vault {
    v.(lastSeen := rate, allTimeHigh := rate, final := rate,
       syForPt := SyBackingForPt(rate, v.ptSupply, ActiveSy(v)))
  }

  /** An update that raises the rate credits the vault's own position with what it earned. */
  lemma RaisedYield(s: State, rate: Number, now: nat)
    requires IsActive(s.vault, now) && 0 < rate && s.vault.allTimeHigh <= rate
    ensures var e := EarnedSy(s.robot.yt, s.robot.index, rate);
            UpdateYield(s, rate, now) == Ok(s.(vault := Raised(s.vault, rate).(uncollected := s.vault.uncollected + e),
                                               robot := s.robot.(staged := s.robot.staged + e, index := rate)))
  {
    NoSkim(s.vault, rate, now);
    EarnUnscaled(Raised(s.vault, rate), s.robot);
    hide SyBackingForPt, EarnedBy, EarnedSy, Skim, UpdateYield;
    UpdateYieldIs(s, rate, now, Raised(s.vault, rate));
  }

  /** The first strip of a new vault. */
  lemma FirstStrip(s: State, rate: Number, amount: nat)
    requires s == NewVault(0, s.vault.duration, s.vault.maxPySupply) && rate > 0
    requires SyToPy(rate, amount) <= s.vault.maxPySupply
    ensures var py := SyToPy(rate, amount);
            var backing := SyBackingForPt(rate, py, amount);
            Strip(s, rate, 0, amount)
            == Ok(State(s.vault.(lastSeen := rate, allTimeHigh := rate, final := rate, totalSy := amount,
                                 syForPt := backing, ptSupply := py), YieldPosition(py, rate, 0), map[]))
  {
    RaisedYield(s, rate, 0);
    hide UpdateYield, SyToPy, SyBackingForPt;
  }

  /** At the rate everything stands at, a user's first deposit moves YT and changes nothing else. */
  lemma FirstDeposit(s: State, user: Pubkey, amount: nat)
    requires IsActive(s.vault, 0) && s.vault == Raised(s.vault, s.robot.index) && s.robot.index > 0
    requires s.users == map[user := YieldPosition(0, 0, 0)] && amount <= s.robot.yt
    ensures DepositYt(s, s.robot.index, 0, user, amount)
         == Ok(State(s.vault, s.robot.(yt := s.robot.yt - amount),
                     map[user := YieldPosition(amount, s.robot.index, 0)]))
  {
    RaisedYield(s, s.robot.index, 0);
    NothingHeld(s.vault, s.users[user]);
    hide UpdateYield, SyBackingForPt, EarnedBy;
    assert UpdateYield(s, s.robot.index, 0) == Ok(s);
    var s2 := EarnUser(s, user).value;
    assert s2.vault == s.vault && s2.users == map[user := YieldPosition(0, s.robot.index, 0)];
    assert s2.users[user := YieldPosition(amount, s.robot.index, 0)]
        == map[user := YieldPosition(amount, s.robot.index, 0)];
    assert SetSyForPt(s2.vault) == s.vault;
  }

  /** Merging nothing is an update of the vault and of its own position. */
  lemma MergeNothing(s: State, rate: Number)
    requires IsActive(s.vault, 0) && 0 < rate && s.vault.allTimeHigh <= rate
    ensures var e := EarnedSy(s.robot.yt, s.robot.index, rate);
            Merge(s, rate, 0, 0)
            == Ok(s.(vault := SetSyForPt(Raised(s.vault, rate).(uncollected := s.vault.uncollected + e)),
                     robot := s.robot.(staged := s.robot.staged + e, index := rate)))
  {
    RaisedYield(s, rate, 0);
    var v := UpdateYield(s, rate, 0).value.vault;
    assert MergedSy(v, 0) == 0;
    hide UpdateYield, SyBackingForPt, EarnedSy, MergedSy;
  }

  // ---------- A strip at a rate whose reciprocal is rounded up ----------

  const ODD: Number := 1_500_000_000_000
  const FAR: Number := 3_000_000_000_000_000_000_000_000

  lemma OddRecips()
    ensures Recip(ODD) == 666_666_666_667 && Recip(FAR) == 0
    ensures !RecipSafe(ODD)
  {
  }

  function Stripped(): State {
    State(Vault(0, DAY, ODD, ODD, ODD, 2_000_000_000_000, 2_000_000_000_000, 3_000_000_000_000, 0, 0, CAP),
          YieldPosition(3_000_000_000_000, ODD, 0), map[])
  }

  lemma StripNumbers()
    ensures SyToPy(ODD, 2_000_000_000_000) == 3_000_000_000_000
    ensures SyBackingForPt(ODD, 3_000_000_000_000, 2_000_000_000_000) == 2_000_000_000_000
    ensures SyBackingForPt(ODD, 0, 0) == 0
    ensures EarnedSy(0, 0, ODD) == 0
  {
  }

  lemma StripReached(s: State, op: Op)
    requires s == Start() && op == StripOp(ODD, 0, 2_000_000_000_000)
    ensures Apply(s, op) == Ok(Stripped())
  {
    StripNumbers();
    hide SyToPy, SyBackingForPt, EarnedSy, Skim, UpdateYield;
    assert Skim(s.vault, op.rate, 0) == 0 by { NoSkim(s.vault, op.rate, 0); }
    UpdateYieldIs(s, op.rate, 0, s.vault.(lastSeen := op.rate, allTimeHigh := op.rate, final := op.rate));
  }

  function Opened(): State {
    Stripped().(users := map[1 := YieldPosition(0, 0, 0)])
  }

  function Overdrawn(): State {
    State(Vault(0, DAY, FAR, FAR, FAR, 2_000_000_000_000, 0, 3_000_000_000_000, 0, 2_000_000_000_001, CAP),
          YieldPosition(3_000_000_000_000, FAR, 2_000_000_000_001), map[1 := YieldPosition(0, FAR, 0)])
  }

  lemma OverdraftNumbers()
    ensures EarnedSy(3_000_000_000_000, ODD, FAR) == 2_000_000_000_001
    ensures EarnedSy(0, 0, FAR) == 0
  {
    OddRecips();
    hide Recip;
  }

  lemma OverdraftReached(s: State, op: Op)
    requires s == Opened() && op == StageOp(FAR, 1, 1)
    ensures Apply(s, op) == Ok(Overdrawn())
  {
    OverdraftNumbers();
    SyBackingBound(FAR, 3_000_000_000_000, 0);
    NoSkim(s.vault, op.rate, 1);
    hide SyBackingForPt, EarnedSy, Skim, UpdateYield;
    var v1 := s.vault.(lastSeen := op.rate, allTimeHigh := op.rate, final := op.rate,
                       syForPt := SyBackingForPt(op.rate, s.vault.ptSupply, ActiveSy(s.vault)));
    UpdateYieldIs(s, op.rate, 1, v1);
    assert EarnedBy(v1, s.robot) == 2_000_000_000_001;
    var s1 := UpdateYield(s, op.rate, 1).value;
    assert s1.robot == Overdrawn().robot && s1.users == s.users;
    assert EarnedBy(s1.vault, s1.users[1]) == 0;
    var s2 := EarnUser(s1, 1).value;
    assert s2.users == Overdrawn().users;
    assert ActiveSy(s2.vault) == 0;
    assert SetSyForPt(s2.vault) == Overdrawn().vault;
  }

  /**
   `escrow >= treasury + uncollected` can fail: after one strip at 1.5, where the reciprocal rounds up,
   the interest credited at a far higher rate exceeds the escrow by one SY.
   */
  lemma DustOverdraft()
    ensures var ops := [StripOp(ODD, 0, 2_000_000_000_000), InitializeOp(1), StageOp(FAR, 1, 1)];
            var v := Run(Genesis(0, DAY, CAP), ops).s.vault;
            v.treasury + v.uncollected == v.totalSy + 1
  {
    var ops := [StripOp(ODD, 0, 2_000_000_000_000), InitializeOp(1), StageOp(FAR, 1, 1)];
    OverdraftRun(ops);
    hide Run;
  }

  lemma OverdraftRun(ops: seq<Op>)
    requires ops == [StripOp(ODD, 0, 2_000_000_000_000), InitializeOp(1), StageOp(FAR, 1, 1)]
    ensures Run(Genesis(0, DAY, CAP), ops).s == Overdrawn()
  {
    assert Genesis(0, DAY, CAP).s == Start();
    hide Apply, Run, States, Stripped, Opened, Overdrawn, Start, Genesis;
    StripReached(Start(), ops[0]);
    OverdraftReached(Opened(), ops[2]);
    InitializeReached(Stripped(), ops[1]);
    RunStates(Genesis(0, DAY, CAP), ops);
    ChainEnds([Start(), Stripped(), Opened(), Overdrawn()], ops);
  }

  lemma InitializeReached(s: State, op: Op)
    requires s == Stripped() && op == InitializeOp(1)
    ensures Apply(s, op) == Ok(Opened())
  {
  }

  // ---------- Collecting without recomputing the backing ----------

  const UNIT: Number := 1_000_000_000_000
  const TRIPLE: Number := 3_000_000_000_000

  /** User 1 was last credited at 1; another handler has since brought the vault to 3. */
  function Unstaged(): State {
    State(Vault(0, DAY, TRIPLE, TRIPLE, TRIPLE, 3_000_000_000_000, 1_000_000_000_000, 3_000_000_000_000, 0, 0, CAP),
          YieldPosition(0, TRIPLE, 0), map[1 := YieldPosition(3_000_000_000_000, UNIT, 0)])
  }

  lemma UnstagedNumbers()
    ensures Recip(UNIT) == 1_000_000_000_000 && Recip(TRIPLE) == 333_333_333_333
    ensures EarnedSy(3_000_000_000_000, UNIT, TRIPLE) == 2_000_000_000_001
  {
  }

  /** Stripped at 1, all YT still held by the vault. */
  function StrippedAtUnit(): State {
    State(Vault(0, DAY, UNIT, UNIT, UNIT, 3_000_000_000_000, 3_000_000_000_000, 3_000_000_000_000, 0, 0, CAP),
          YieldPosition(3_000_000_000_000, UNIT, 0), map[])
  }

  function OpenedAtUnit(): State {
    StrippedAtUnit().(users := map[1 := YieldPosition(0, 0, 0)])
  }

  /** All YT is user 1's. */
  function DepositedAtUnit(): State {
    State(OpenedAtUnit().vault, YieldPosition(0, UNIT, 0), map[1 := YieldPosition(3_000_000_000_000, UNIT, 0)])
  }

  lemma UnitNumbers()
    ensures SyToPy(UNIT, 3_000_000_000_000) == 3_000_000_000_000
    ensures SyBackingForPt(UNIT, 3_000_000_000_000, 3_000_000_000_000) == 3_000_000_000_000
    ensures SyBackingForPt(TRIPLE, 3_000_000_000_000, 3_000_000_000_000) == 1_000_000_000_000
    ensures EarnedSy(0, UNIT, TRIPLE) == 0
  {
  }

  lemma StripAtUnit(s: State, op: Op)
    requires s == Start() && op == StripOp(UNIT, 0, 3_000_000_000_000)
    ensures Apply(s, op) == Ok(StrippedAtUnit())
  {
    UnitNumbers();
    hide SyToPy, SyBackingForPt, Strip;
    FirstStrip(s, op.rate, op.amount);
  }

  lemma OpenAtUnit(s: State, op: Op)
    requires s == StrippedAtUnit() && op == InitializeOp(1)
    ensures Apply(s, op) == Ok(OpenedAtUnit())
  {
  }

  lemma DepositAtUnit(s: State, op: Op)
    requires s == OpenedAtUnit() && op == DepositOp(UNIT, 0, 1, 3_000_000_000_000)
    ensures Apply(s, op) == Ok(DepositedAtUnit())
  {
    UnitNumbers();
    hide SyBackingForPt, DepositYt;
    FirstDeposit(s, 1, op.amount);
  }

  lemma MergeAtTriple(s: State, op: Op)
    requires s == DepositedAtUnit() && op == MergeOp(TRIPLE, 0, 0)
    ensures Apply(s, op) == Ok(Unstaged())
  {
    UnitNumbers();
    hide SyBackingForPt, EarnedSy, Merge;
    MergeNothing(s, op.rate);
  }

  /** From a new vault, a strip, a deposit of all its YT and one update lead to that state. */
  lemma UnstagedReached(s: State, ops: seq<Op>)
    requires s == Start()
    requires ops == [StripOp(UNIT, 0, 3_000_000_000_000), InitializeOp(1), DepositOp(UNIT, 0, 1, 3_000_000_000_000),
                     MergeOp(TRIPLE, 0, 0)]
    ensures States(s, ops) == Unstaged()
  {
    hide Apply, States, Start, StrippedAtUnit, OpenedAtUnit, DepositedAtUnit, Unstaged;
    StripAtUnit(s, ops[0]);
    OpenAtUnit(StrippedAtUnit(), ops[1]);
    DepositAtUnit(OpenedAtUnit(), ops[2]);
    MergeAtTriple(DepositedAtUnit(), ops[3]);
    ChainEnds([s, StrippedAtUnit(), OpenedAtUnit(), DepositedAtUnit(), Unstaged()], ops);
  }

  function Staged(): State {
    State(Vault(0, DAY, TRIPLE, TRIPLE, TRIPLE, 3_000_000_000_000, 1_000_000_000_000, 3_000_000_000_000, 0,
                2_000_000_000_001, CAP),
          YieldPosition(0, TRIPLE, 0), map[1 := YieldPosition(3_000_000_000_000, TRIPLE, 2_000_000_000_001)])
  }

  lemma CollectReached(s: State, op: Op)
    requires s == Unstaged() && op == CollectOp(1, 0)
    ensures Apply(s, op) == Ok(Staged())
  {
    UnstagedNumbers();
    hide Recip, EarnedSy;
    assert EarnedBy(s.vault, s.users[1]) == 2_000_000_000_001;
    var s1 := EarnUser(s, 1).value;
    assert s1 == Staged();
    assert s1.users[1 := s1.users[1].(staged := s1.users[1].staged - 0)] == s1.users;
  }

  /**
   `escrow >= sy_for_pt + treasury + uncollected` can fail after `collect_interest`: a run from a new
   vault reaches a state where it holds, and collecting nothing there credits 2e12 + 1 SY without
   lowering the stored PT backing of 1e12.
   */
  lemma CollectLeavesBackingStale()
    ensures var ops := [StripOp(UNIT, 0, 3_000_000_000_000), InitializeOp(1),
                        DepositOp(UNIT, 0, 1, 3_000_000_000_000), MergeOp(TRIPLE, 0, 0)];
            var v := Run(Genesis(0, DAY, CAP), ops).s.vault;
            var v' := Run(Genesis(0, DAY, CAP), ops + [CollectOp(1, 0)]).s.vault;
            && v.syForPt + v.treasury + v.uncollected <= v.totalSy
            && v'.syForPt + v'.treasury + v'.uncollected == v'.totalSy + 1
  {
    var ops := [StripOp(UNIT, 0, 3_000_000_000_000), InitializeOp(1),
                DepositOp(UNIT, 0, 1, 3_000_000_000_000), MergeOp(TRIPLE, 0, 0)];
    CollectRun(ops, ops + [CollectOp(1, 0)]);
    hide Run;
  }

  lemma CollectRun(ops: seq<Op>, all: seq<Op>)
    requires ops == [StripOp(UNIT, 0, 3_000_000_000_000), InitializeOp(1),
                     DepositOp(UNIT, 0, 1, 3_000_000_000_000), MergeOp(TRIPLE, 0, 0)]
    requires all == ops + [CollectOp(1, 0)]
    ensures Run(Genesis(0, DAY, CAP), ops).s == Unstaged()
    ensures Run(Genesis(0, DAY, CAP), all).s == Staged()
  {
    assert Genesis(0, DAY, CAP).s == Start();
    hide Apply, Run, States, Start, Genesis, Unstaged, Staged;
    UnstagedReached(Start(), ops);
    CollectReached(Unstaged(), CollectOp(1, 0));
    StatesJoin(Start(), ops, CollectOp(1, 0));
    RunStates(Genesis(0, DAY, CAP), ops);
    RunStates(Genesis(0, DAY, CAP), all);
  }

  lemma {:induction false} StatesJoin(s: State, ops: seq<Op>, op: Op)
    requires Apply(States(s, ops), op).Ok?
    ensures States(s, ops + [op]) == Apply(States(s, ops), op).value
    decreases |ops|
  {
    hide Apply;
    if ops == [] {
      assert ([op])[1..] == [];
    } else {
      assert (ops + [op])[1..] == ops[1..] + [op];
      StatesJoin(match Apply(s, ops[0]) case Ok(s') => s' case Err(_) => s, ops[1..], op);
    }
  }

  // ---------- Maturing in emergency mode ----------

  const DOUBLE: Number := 2_000_000_000_000
  const EIGHTFOLD: Number := 8_000_000_000_000

  /**
   The rate has been 4, where the vault's position was credited, and is 2 as the vault matures; user 1
   was last credited at 1.
   */
  function MaturedLow(): State {
    State(Vault(0, DAY, DOUBLE, 2 * DOUBLE, DOUBLE, 225, 150, 300, 0, 75, CAP),
          YieldPosition(201, 2 * DOUBLE, 75), map[1 := YieldPosition(99, UNIT, 0)])
  }

  /** On the way there: stripped at 1, opened, 99 YT deposited, updated at 4, the creator's half collected. */
  function Lows(): (states: seq<State>)
    ensures |states| == 7 && states[0] == Start() && states[6] == MaturedLow()
  {
    var v := Vault(0, DAY, UNIT, UNIT, UNIT, 300, 300, 300, 0, 0, CAP);
    var high := Vault(0, DAY, 2 * DOUBLE, 2 * DOUBLE, 2 * DOUBLE, 300, 75, 300, 0, 150, CAP);
    [Start(),
     State(v, YieldPosition(300, UNIT, 0), map[]),
     State(v, YieldPosition(300, UNIT, 0), map[1 := YieldPosition(0, 0, 0)]),
     State(v, YieldPosition(201, UNIT, 0), map[1 := YieldPosition(99, UNIT, 0)]),
     State(high, YieldPosition(201, 2 * DOUBLE, 150), map[1 := YieldPosition(99, UNIT, 0)]),
     State(high.(totalSy := 225, uncollected := 75), YieldPosition(201, 2 * DOUBLE, 75),
           map[1 := YieldPosition(99, UNIT, 0)]),
     MaturedLow()]
  }

  function LowOps(): (ops: seq<Op>)
    ensures |ops| == 6
  {
    [StripOp(UNIT, 0, 300), InitializeOp(1), DepositOp(UNIT, 0, 1, 99), MergeOp(2 * DOUBLE, 0, 0),
     CollectRobotOp(75), WithdrawOp(DOUBLE, 0, 1, 0)]
  }

  lemma LowNumbers()
    ensures SyToPy(UNIT, 300) == 300 && SyBackingForPt(UNIT, 300, 300) == 300
    ensures EarnedSy(201, UNIT, 2 * DOUBLE) == 150
    ensures SyBackingForPt(2 * DOUBLE, 300, 150) == 75 && SyBackingForPt(2 * DOUBLE, 300, 300) == 75
    ensures SyBackingForPt(DOUBLE, 300, 150) == 150
  {
  }

  lemma LowStrip(s: State, op: Op, s': State)
    requires s == Start() && op == StripOp(UNIT, 0, 300) && s' == Lows()[1]
    ensures Apply(s, op) == Ok(s')
  {
    LowNumbers();
    hide SyToPy, SyBackingForPt, Strip;
    FirstStrip(s, op.rate, op.amount);
  }

  lemma LowDeposit(s: State, op: Op, s': State)
    requires s == Lows()[2] && op == DepositOp(UNIT, 0, 1, 99) && s' == Lows()[3]
    ensures Apply(s, op) == Ok(s')
  {
    LowNumbers();
    hide SyBackingForPt, DepositYt;
    FirstDeposit(s, 1, op.amount);
  }

  lemma LowMerge(s: State, op: Op, s': State)
    requires s == Lows()[3] && op == MergeOp(2 * DOUBLE, 0, 0) && s' == Lows()[4]
    ensures Apply(s, op) == Ok(s')
  {
    LowNumbers();
    hide SyBackingForPt, EarnedSy, Merge;
    MergeNothing(s, op.rate);
  }

  lemma LowCollect(s: State, op: Op, s': State)
    requires s == Lows()[4] && op == CollectRobotOp(75) && s' == Lows()[5]
    ensures Apply(s, op) == Ok(s')
  {
  }

  /** At the lower rate nobody is credited, but a withdrawal of YT is still accepted. */
  lemma LowWithdraw(s: State, op: Op, s': State)
    requires s == Lows()[5] && op == WithdrawOp(DOUBLE, 0, 1, 0) && s' == MaturedLow()
    ensures Apply(s, op) == Ok(s')
  {
    LowNumbers();
    NoSkim(s.vault, op.rate, 0);
    hide SyBackingForPt, EarnedBy, Skim;
    assert UpdateFromSyState(s.vault, DOUBLE, 0) == MaturedLow().vault;
    assert UpdateYield(s, DOUBLE, 0) == Ok(s.(vault := MaturedLow().vault));
    var s2 := EarnUser(s.(vault := MaturedLow().vault), 1).value;
    assert s2.users == s.users;
  }

  lemma LowOpen(s: State, op: Op, s': State)
    requires s == Lows()[1] && op == InitializeOp(1) && s' == Lows()[2]
    ensures Apply(s, op) == Ok(s')
  {
  }

  lemma LowStep(k: nat)
    requires k < 6
    ensures Apply(Lows()[k], LowOps()[k]) == Ok(Lows()[k + 1])
  {
    hide Apply, MaturedLow, Start, Lows;
    if k == 0 {
      LowStrip(Lows()[0], LowOps()[0], Lows()[1]);
    } else if k == 1 {
      LowOpen(Lows()[1], LowOps()[1], Lows()[2]);
    } else if k == 2 {
      LowDeposit(Lows()[2], LowOps()[2], Lows()[3]);
    } else if k == 3 {
      LowMerge(Lows()[3], LowOps()[3], Lows()[4]);
    } else if k == 4 {
      LowCollect(Lows()[4], LowOps()[4], Lows()[5]);
    } else {
      LowWithdraw(Lows()[5], LowOps()[5], Lows()[6]);
    }
  }

  /** A run from a new vault leads there. */
  lemma MaturedLowReached()
    ensures Chain(Lows(), LowOps())
  {
    hide Apply, MaturedLow, Start, Lows, LowOps;
    forall k | 0 <= k < 6 ensures Apply(Lows()[k], LowOps()[k]) == Ok(Lows()[k + 1]) {
      LowStep(k);
    }
  }

  /** At 8 the skim takes 112 of 150, and all PT redeem 36. */
  function MergedHigh(): State {
    State(Vault(0, DAY, EIGHTFOLD, EIGHTFOLD, DOUBLE, 189, 0, 0, 112, 75, CAP),
          YieldPosition(201, DOUBLE, 75), map[1 := YieldPosition(99, UNIT, 0)])
  }

  /** User 1's late interest is then no longer in the escrow. */
  function StagedHigh(): State {
    State(Vault(0, DAY, EIGHTFOLD, EIGHTFOLD, DOUBLE, 189, 0, 0, 112, 87, CAP),
          YieldPosition(201, DOUBLE, 75), map[1 := YieldPosition(99, DOUBLE, 12)])
  }

  lemma MaturedNumbers()
    ensures Recip(UNIT) == 1_000_000_000_000 && Recip(DOUBLE) == 500_000_000_000 && Recip(2 * DOUBLE) == 250_000_000_000
    ensures Appreciation(DOUBLE, EIGHTFOLD, 150) == 112
    ensures SyBackingForPt(EIGHTFOLD, 300, 38) == 37
    ensures FromRatio(37, 300) == 123_333_333_333
    ensures EarnedSy(99, UNIT, DOUBLE) == 49
    ensures ScaleToCurrent(49, DOUBLE, EIGHTFOLD) == 12
    ensures SyBackingForPt(EIGHTFOLD, 0, 2) == 0
    ensures SyBackingForPt(EIGHTFOLD, 0, 0) == 0
  {
  }

  lemma MergeReached(s: State, op: Op)
    requires s == MaturedLow() && op == MergeOp(EIGHTFOLD, DAY + 1, 300)
    ensures Apply(s, op) == Ok(MergedHigh())
  {
    MaturedNumbers();
    hide SyBackingForPt, EarnedSy, Appreciation, UpdateYield, FromRatio, ScaleToCurrent;
    var v1 := s.vault.(treasury := 112, lastSeen := op.rate, allTimeHigh := op.rate, syForPt := 37);
    UpdateYieldIs(s, op.rate, DAY + 1, v1);
    NothingEarned(v1, s.robot);
    var s1 := UpdateYield(s, op.rate, DAY + 1).value;
    assert MergedSy(s1.vault, 300) == 36;
  }

  lemma StageReached(s: State, op: Op)
    requires s == MergedHigh() && op == StageOp(EIGHTFOLD, DAY + 2, 1)
    ensures Apply(s, op) == Ok(StagedHigh())
  {
    MaturedNumbers();
    hide SyBackingForPt, EarnedSy, Appreciation, UpdateYield, ScaleToCurrent;
    UpdateYieldIs(s, op.rate, DAY + 2, s.vault);
    NothingEarned(s.vault, s.robot);
    assert UpdateYield(s, op.rate, DAY + 2) == Ok(s);
    assert EarnedBy(s.vault, s.users[1]) == 12;
    assert EarnUser(s, 1).value.users == StagedHigh().users;
  }

  /**
   Maturing in emergency mode can overdraw the escrow: on a run from a new vault, whose operations are
   before maturity up to the last two and after it from then on, a merge and a credit at a recovered rate
   leave the treasury and the credited interest owed more SY than the vault holds.
   */
  lemma EmergencyMaturityOverdraft(merge: Op, stage: Op)
    requires merge == MergeOp(EIGHTFOLD, DAY + 1, 300) && stage == StageOp(EIGHTFOLD, DAY + 2, 1)
    ensures var v0 := Genesis(0, DAY, CAP).s.vault; WhileActive(v0, LowOps()) && AfterMaturity(v0, [merge, stage])
    ensures Emergency(Run(Genesis(0, DAY, CAP), LowOps()).s.vault)
    ensures var v := Run(Genesis(0, DAY, CAP), LowOps() + [merge] + [stage]).s.vault;
            v.treasury + v.uncollected > v.totalSy
  {
    LowClocks(merge, stage);
    assert Genesis(0, DAY, CAP).s == Start();
    assert Emergency(MaturedLow().vault);
    assert StagedHigh().vault.treasury + StagedHigh().vault.uncollected > StagedHigh().vault.totalSy;
    hide Run, States, LowOps, WhileActive, AfterMaturity, Start, Genesis, MaturedLow, StagedHigh, Emergency;
    OverdraftFromStart(Start(), merge, stage);
    RunStates(Genesis(0, DAY, CAP), LowOps());
    RunStates(Genesis(0, DAY, CAP), LowOps() + [merge] + [stage]);
  }

  lemma LowClocks(merge: Op, stage: Op)
    requires merge == MergeOp(EIGHTFOLD, DAY + 1, 300) && stage == StageOp(EIGHTFOLD, DAY + 2, 1)
    ensures var v0 := Genesis(0, DAY, CAP).s.vault; WhileActive(v0, LowOps()) && AfterMaturity(v0, [merge, stage])
  {
  }

  lemma OverdraftFromStart(s: State, merge: Op, stage: Op)
    requires s == Start()
    requires merge == MergeOp(EIGHTFOLD, DAY + 1, 300) && stage == StageOp(EIGHTFOLD, DAY + 2, 1)
    ensures States(s, LowOps()) == MaturedLow()
    ensures States(s, LowOps() + [merge] + [stage]) == StagedHigh()
  {
    MaturedLowReached();
    hide Apply, States, Start, MaturedLow, MergedHigh, StagedHigh, Lows, LowOps;
    ChainEnds(Lows(), LowOps());
    MergeReached(MaturedLow(), merge);
    StageReached(MergedHigh(), stage);
    StatesJoin(s, LowOps(), merge);
    StatesJoin(s, LowOps() + [merge], stage);
  }
}
