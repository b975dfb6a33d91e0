/**
 The whole rewards program beside the reference ledger: any number of farms and positions, any run.

 `World` pairs the program's state with a history per farm that the program does not store.
 */
module RewardsLedger {
  import opened Foundations
  import opened MapSums
  import opened Numbers
  import opened Rewards
  import opened FarmLedger

  datatype History = History(totals: Totals, book: map<Pubkey, Entry>)

  datatype World = World(s: State, hist: seq<History>)

  datatype Op =
    | StakeOp(owner: Pubkey, amount: nat, now: nat)
    | UnstakeOp(owner: Pubkey, amount: nat, now: nat)
    | ClaimOp(owner: Pubkey, mint: Pubkey, now: nat)
    | AddFarmOp(mint: Pubkey, rate: nat, expiry: nat)
    | RefillOp(mint: Pubkey, amount: nat)
    | ReallocOp(owner: Pubkey)

  function Apply(s: State, op: Op): Result<State, Error> {
    match op
    case StakeOp(owner, amount, now) => Stake(s, owner, amount, now)
    case UnstakeOp(owner, amount, now) => Unstake(s, owner, amount, now)
    case ClaimOp(owner, mint, now) => Claim(s, owner, mint, now)
    case AddFarmOp(mint, rate, expiry) => AddFarm(s, mint, rate, expiry)
    case RefillOp(mint, amount) => Refill(s, mint, amount)
    case ReallocOp(owner) => ReallocPosition(s, owner)
  }

  // ---------- The histories ----------

  function EntryOf(h: History, u: Pubkey): Entry {
    if u in h.book then h.book[u] else NO_ENTRY
  }

  predicate Accrues(s: State, i: nat, now: nat)
    requires i < |s.farms|
  {
    s.totalStaked > 0 && s.lastTs < Min(s.farms[i].expiry, now)
  }

  function AdvanceHistory(h: History, s: State, i: nat, now: nat): History
    requires i < |s.farms|
  {
    if Accrues(s, i, now) then
      var emission := Emission(s.farms[i], s.lastTs, now);
      History(h.totals.(emitted := h.totals.emitted + emission, dust := h.totals.dust + s.totalStaked),
              map u | u in s.positions :: Share(EntryOf(h, u), emission, s.positions[u].staked, s.totalStaked))
    else h
  }

  function SettleHistory(h: History, farm: Farm, i: nat, owner: Pubkey, pos: Position): History {
    var forfeit := Forfeit(farm, TrackerAt(pos, i), pos.staked);
    History(h.totals.(settlements := h.totals.settlements + 1, forfeited := h.totals.forfeited + forfeit),
            h.book[owner := SettleEntry(EntryOf(h, owner), forfeit)])
  }

  function PayHistory(h: History, owner: Pubkey, due: nat): History {
    var e := EntryOf(h, owner);
    History(h.totals.(claimed := h.totals.claimed + due), h.book[owner := e.(claimed := e.claimed + due)])
  }

  function Advance(w: World, now: nat): World
    requires |w.hist| == |w.s.farms|
  {
    World(UpdateIndexes(w.s, now),
          seq(|w.hist|, i requires 0 <= i < |w.hist| => AdvanceHistory(w.hist[i], w.s, i, now)))
  }

  function Settle(w: World, owner: Pubkey, pos: Position): World
    requires |w.hist| == |w.s.farms|
  {
    World(w.s.(positions := w.s.positions[owner := SettledPosition(w.s.farms, pos)]),
          seq(|w.hist|, i requires 0 <= i < |w.hist| => SettleHistory(w.hist[i], w.s.farms[i], i, owner, pos)))
  }

  function Open(w: World, owner: Pubkey): World {
    w.(s := w.s.(positions := w.s.positions[owner := PositionOrNew(w.s, owner)]))
  }

  /** Where the common prologue of the handlers leads. */
  function Touched(w: World, owner: Pubkey, now: nat): (t: World)
    requires |w.hist| == |w.s.farms|
    ensures |t.hist| == |t.s.farms| == |w.s.farms|
  {
    Settle(Advance(Open(w, owner), now), owner, PositionOrNew(w.s, owner))
  }

  /** One transaction. A failed one leaves no trace. */
  function Step(w: World, op: Op): World
    requires |w.hist| == |w.s.farms|
  {
    match Apply(w.s, op)
    case Err(_) => w
    case Ok(s') =>
      match op
      case StakeOp(owner, _, now) => World(s', Touched(w, owner, now).hist)
      case UnstakeOp(owner, _, now) => World(s', Touched(w, owner, now).hist)
      case ClaimOp(owner, mint, now) =>
        var t := Touched(w, owner, now);
        var i := FarmIndex(t.s.farms, mint);
        if i == |t.s.farms| then t
        else World(s', t.hist[i := PayHistory(t.hist[i], owner, TrackerAt(t.s.positions[owner], i).claimable)])
      case AddFarmOp(_, _, _) => World(s', w.hist + [History(NO_TOTALS, map[])])
      case RefillOp(_, _) => World(s', w.hist)
      case ReallocOp(_) => World(s', w.hist)
  }

  // ---------- The invariant ----------

  ghost function AccountsOf(s: State, h: History, i: nat): Accounts {
    map u | u in s.positions :: Account(s.positions[u].staked, TrackerAt(s.positions[u], i), EntryOf(h, u))
  }

  ghost function StakesOf(s: State): map<Pubkey, int> {
    map u | u in s.positions :: s.positions[u].staked
  }

  ghost predicate Shaped(w: World) {
    && |w.hist| == |w.s.farms|
    && (forall u :: u in w.s.positions ==> |w.s.positions[u].perFarm| <= |w.s.farms|)
    && (forall i :: 0 <= i < |w.hist| ==> w.hist[i].book.Keys <= w.s.positions.Keys)
  }

  ghost predicate FarmHolds(w: World, i: nat)
    requires |w.hist| == |w.s.farms| && i < |w.hist|
  {
    FarmInv(w.s.farms[i], w.hist[i].totals, AccountsOf(w.s, w.hist[i], i))
  }

  ghost predicate Inv(w: World) {
    && Shaped(w)
    && w.s.totalStaked == Sum(StakesOf(w.s))
    && w.s.totalStaked <= w.s.lpEscrow
    && forall i :: 0 <= i < |w.hist| ==> FarmHolds(w, i)
  }

  // ---------- Opening an account ----------

  lemma OpenFarmHolds(w: World, owner: Pubkey, i: nat)
    requires Shaped(w) && i < |w.hist| && FarmHolds(w, i) && owner !in w.s.positions
    ensures i < |Open(w, owner).s.farms| && FarmHolds(Open(w, owner), i)
  {
    hide FarmInv;
    var v := Open(w, owner);
    OpenKeeps(w.s.farms[i], w.hist[i].totals, AccountsOf(w.s, w.hist[i], i), owner);
    assert AccountsOf(v.s, v.hist[i], i) == AccountsOf(w.s, w.hist[i], i)[owner := Account(0, FRESH, NO_ENTRY)];
  }

  lemma OpenHolds(w: World, owner: Pubkey)
    requires Inv(w)
    ensures Inv(Open(w, owner))
  {
    hide FarmInv;
    var v := Open(w, owner);
    if owner in w.s.positions {
      assert v == w;
    } else {
      assert StakesOf(v.s) == StakesOf(w.s)[owner := 0];
      SumPut(StakesOf(w.s), owner, 0);
      forall i | 0 <= i < |v.hist| ensures FarmHolds(v, i) {
        OpenFarmHolds(w, owner, i);
      }
    }
  }

  // ---------- Advancing the indexes ----------

  lemma AccruedFarm(s: State, i: nat, now: nat)
    requires i < |s.farms|
    ensures UpdateIndexes(s, now).farms[i]
         == if Accrues(s, i, now) then Raised(s.farms[i], FromRatio(Emission(s.farms[i], s.lastTs, now), s.totalStaked))
            else s.farms[i]
  {
  }

  lemma AdvanceFarmHolds(w: World, now: nat, i: nat)
    requires Inv(w) && i < |w.hist|
    ensures FarmHolds(Advance(w, now), i)
  {
    hide FarmInv, FromRatio, Share, Emission;
    assert FarmHolds(w, i);
    AccruedFarm(w.s, i, now);
    var acc, acc' := AccountsOf(w.s, w.hist[i], i), AccountsOf(Advance(w, now).s, Advance(w, now).hist[i], i);
    if Accrues(w.s, i, now) {
      var emission := Emission(w.s.farms[i], w.s.lastTs, now);
      assert Stakes(acc) == StakesOf(w.s);
      AccrueKeeps(w.s.farms[i], w.hist[i].totals, acc, emission, w.s.totalStaked);
      assert acc' == ShareAll(acc, emission, w.s.totalStaked);
    } else {
      assert acc' == acc;
    }
  }

  lemma AdvanceHolds(w: World, now: nat)
    requires Inv(w)
    ensures Inv(Advance(w, now))
  {
    hide FarmHolds, Accrued;
    var v := Advance(w, now);
    assert StakesOf(v.s) == StakesOf(w.s);
    forall i | 0 <= i < |v.hist| ensures FarmHolds(v, i) {
      AdvanceFarmHolds(w, now, i);
    }
  }

  // ---------- Settling a position ----------

  lemma SettleFarmHolds(w: World, owner: Pubkey, i: nat)
    requires Shaped(w) && owner in w.s.positions && i < |w.hist| && FarmHolds(w, i)
    ensures FarmHolds(Settle(w, owner, w.s.positions[owner]), i)
  {
    hide FarmInv, SettledTracker, Forfeit;
    var v := Settle(w, owner, w.s.positions[owner]);
    var acc := AccountsOf(w.s, w.hist[i], i);
    SettleKeeps(w.s.farms[i], w.hist[i].totals, acc, owner);
    assert AccountsOf(v.s, v.hist[i], i) == acc[owner := SettleAccount(w.s.farms[i], acc[owner])];
  }

  lemma SettleHolds(w: World, owner: Pubkey)
    requires Inv(w) && owner in w.s.positions
    ensures Inv(Settle(w, owner, w.s.positions[owner]))
  {
    hide FarmHolds, SettledTracker, Forfeit;
    var v := Settle(w, owner, w.s.positions[owner]);
    assert StakesOf(v.s) == StakesOf(w.s);
    forall i | 0 <= i < |v.hist| ensures FarmHolds(v, i) {
      SettleFarmHolds(w, owner, i);
    }
  }

  // ---------- The handlers' prologue ----------

  /** Nothing is pending for a position: its trackers stand at the current indexes. */
  ghost predicate Current(s: State, owner: Pubkey) {
    && owner in s.positions
    && |s.positions[owner].perFarm| == |s.farms|
    && forall i :: 0 <= i < |s.farms| ==> s.positions[owner].perFarm[i].lastSeen == s.farms[i].index
  }

  lemma TouchedState(w: World, owner: Pubkey, now: nat)
    requires Shaped(w)
    requires Touch(w.s, PositionOrNew(w.s, owner), now).Ok?
    ensures var (s1, pos) := Touch(w.s, PositionOrNew(w.s, owner), now).value;
            && Touched(w, owner, now).s == s1.(positions := s1.positions[owner := pos])
            && Current(Touched(w, owner, now).s, owner)
  {
    hide Accrued, Earned, Forfeit, SettleHistory, AdvanceHistory;
    var (s1, pos) := Touch(w.s, PositionOrNew(w.s, owner), now).value;
    var o := Open(w, owner);
    assert UpdateIndexes(o.s, now).farms == s1.farms;
    assert o.s.positions[owner := pos] == s1.positions[owner := pos];
  }

  lemma TouchedHolds(w: World, owner: Pubkey, now: nat)
    requires Inv(w)
    ensures Inv(Touched(w, owner, now))
  {
    OpenHolds(w, owner);
    AdvanceHolds(Open(w, owner), now);
    hide Inv, UpdateIndexes, SettledPosition, SettleHistory, AdvanceHistory;
    AdvancePositions(Open(w, owner), now);
    SettleHolds(Advance(Open(w, owner), now), owner);
  }

  lemma AdvancePositions(w: World, now: nat)
    requires Inv(w)
    ensures Advance(w, now).s.positions == w.s.positions
  {
  }

  // ---------- The handlers' own effects ----------

  function Restaked(s: State, owner: Pubkey, staked: nat, total: nat, escrow: nat): State
    requires owner in s.positions
  {
    s.(totalStaked := total, lpEscrow := escrow,
       positions := s.positions[owner := s.positions[owner].(staked := staked)])
  }

  lemma RestakeFarmHolds(w: World, owner: Pubkey, staked: nat, total: nat, escrow: nat, i: nat)
    requires |w.hist| == |w.s.farms| && i < |w.hist| && FarmHolds(w, i)
    requires Current(w.s, owner)
    ensures FarmHolds(w.(s := Restaked(w.s, owner, staked, total, escrow)), i)
  {
    hide FarmInv;
    var acc := AccountsOf(w.s, w.hist[i], i);
    RestakeKeeps(w.s.farms[i], w.hist[i].totals, acc, owner, staked);
    assert AccountsOf(Restaked(w.s, owner, staked, total, escrow), w.hist[i], i)
        == acc[owner := acc[owner].(staked := staked)];
  }

  lemma RestakeHolds(w: World, owner: Pubkey, staked: nat, total: nat, escrow: nat)
    requires Inv(w) && Current(w.s, owner)
    requires total == w.s.totalStaked - w.s.positions[owner].staked + staked <= escrow
    ensures Inv(w.(s := Restaked(w.s, owner, staked, total, escrow)))
  {
    hide FarmHolds;
    var v := w.(s := Restaked(w.s, owner, staked, total, escrow));
    assert StakesOf(v.s) == StakesOf(w.s)[owner := staked];
    SumPut(StakesOf(w.s), owner, staked);
    forall i | 0 <= i < |v.hist| ensures FarmHolds(v, i) {
      RestakeFarmHolds(w, owner, staked, total, escrow, i);
    }
  }

  lemma PayFarmHolds(w: World, owner: Pubkey, i: nat, s': State, j: nat)
    requires Shaped(w) && Current(w.s, owner) && i < |w.hist| && j < |w.hist| && FarmHolds(w, j)
    requires s' == w.s.(rewardEscrow := s'.rewardEscrow,
                        positions := w.s.positions[owner := CashedIn(w.s.positions[owner], i)])
    ensures FarmHolds(World(s', w.hist[i := PayHistory(w.hist[i], owner, w.s.positions[owner].perFarm[i].claimable)]),
                      j)
  {
    hide FarmInv;
    var v := World(s', w.hist[i := PayHistory(w.hist[i], owner, w.s.positions[owner].perFarm[i].claimable)]);
    var acc := AccountsOf(w.s, w.hist[j], j);
    if j == i {
      PayKeeps(w.s.farms[i], w.hist[i].totals, acc, owner);
      assert AccountsOf(v.s, v.hist[i], i) == acc[owner := PayAccount(acc[owner])];
    } else {
      assert AccountsOf(v.s, v.hist[j], j) == acc;
    }
  }

  lemma PayHolds(w: World, owner: Pubkey, i: nat, s': State)
    requires Inv(w) && Current(w.s, owner) && i < |w.hist|
    requires s' == w.s.(rewardEscrow := s'.rewardEscrow,
                        positions := w.s.positions[owner := CashedIn(w.s.positions[owner], i)])
    ensures Inv(World(s', w.hist[i := PayHistory(w.hist[i], owner, w.s.positions[owner].perFarm[i].claimable)]))
  {
    hide FarmInv;
    var v := World(s', w.hist[i := PayHistory(w.hist[i], owner, w.s.positions[owner].perFarm[i].claimable)]);
    assert StakesOf(v.s) == StakesOf(w.s);
    forall j | 0 <= j < |v.hist| ensures FarmHolds(v, j) {
      PayFarmHolds(w, owner, i, s', j);
    }
  }

  lemma AddFarmHolds(w: World, farm: Farm)
    requires Inv(w) && farm.index == 0
    ensures Inv(World(w.s.(farms := w.s.farms + [farm]), w.hist + [History(NO_TOTALS, map[])]))
  {
    hide FarmInv;
    var v := World(w.s.(farms := w.s.farms + [farm]), w.hist + [History(NO_TOTALS, map[])]);
    assert StakesOf(v.s) == StakesOf(w.s);
    forall i | 0 <= i < |v.hist| ensures FarmHolds(v, i) {
      if i < |w.hist| {
        assert FarmHolds(w, i);
        assert AccountsOf(v.s, v.hist[i], i) == AccountsOf(w.s, w.hist[i], i);
      } else {
        NewFarmHolds(farm, AccountsOf(v.s, v.hist[i], i));
      }
    }
  }

  /** Changing only what no claim depends on: reward escrows and the sizes of accounts. */
  lemma SameBooksHold(w: World, s: State)
    requires Inv(w)
    requires s.totalStaked == w.s.totalStaked && s.farms == w.s.farms && s.lpEscrow == w.s.lpEscrow
    requires s.positions.Keys == w.s.positions.Keys
    requires forall u :: u in s.positions ==> s.positions[u] == w.s.positions[u].(capacity := s.positions[u].capacity)
    ensures Inv(World(s, w.hist))
  {
    hide FarmInv;
    var v := World(s, w.hist);
    assert StakesOf(v.s) == StakesOf(w.s);
    forall i | 0 <= i < |v.hist| ensures FarmHolds(v, i) {
      assert FarmHolds(w, i);
      assert AccountsOf(v.s, v.hist[i], i) == AccountsOf(w.s, w.hist[i], i);
    }
  }

  // ---------- Every transaction, every run ----------

  /** Under the invariant the saturating subtraction of `unstake_lp` never saturates. */
  lemma StakeCovered(w: World, owner: Pubkey)
    requires Inv(w) && owner in w.s.positions
    ensures w.s.positions[owner].staked <= w.s.totalStaked
  {
    SumCovers(StakesOf(w.s), owner);
  }

  /** An accepted handler is its prologue followed by its own effect. */
  lemma PrologueFirst(s: State, op: Op)
    requires op.StakeOp? || op.UnstakeOp? || op.ClaimOp?
    requires Apply(s, op).Ok?
    ensures Touch(s, PositionOrNew(s, op.owner), op.now).Ok?
    ensures var (s1, pos) := Touch(s, PositionOrNew(s, op.owner), op.now).value;
            match op
            case StakeOp(owner, amount, _) => Apply(s, op) == PutIn(s1, owner, pos, amount)
            case UnstakeOp(owner, amount, _) => Apply(s, op) == TakeOut(s1, owner, pos, amount)
            case ClaimOp(owner, mint, _) => |s1.farms| <= |pos.perFarm| && Apply(s, op) == PayOut(s1, owner, pos, mint)
            case _ => true
  {
    hide Earned, Accrued;
  }

  lemma TouchedShape(w: World, owner: Pubkey, now: nat)
    requires Inv(w)
    requires Touch(w.s, PositionOrNew(w.s, owner), now).Ok?
    ensures var (s1, pos) := Touch(w.s, PositionOrNew(w.s, owner), now).value;
            && |w.hist| == |w.s.farms|
            && Touched(w, owner, now).s == s1.(positions := s1.positions[owner := pos])
            && Current(Touched(w, owner, now).s, owner)
            && Inv(Touched(w, owner, now))
  {
    hide FarmHolds, Touch, Touched;
    TouchedState(w, owner, now);
    TouchedHolds(w, owner, now);
  }

  lemma StakeHolds(w: World, op: Op)
    requires Inv(w) && (op.StakeOp? || op.UnstakeOp?) && Apply(w.s, op).Ok?
    ensures Inv(Step(w, op))
  {
    hide Touch, Touched, Apply, FarmHolds;
    PrologueFirst(w.s, op);
    TouchedShape(w, op.owner, op.now);
    var v, s' := Touched(w, op.owner, op.now), Apply(w.s, op).value;
    StakeCovered(v, op.owner);
    var staked := s'.positions[op.owner].staked;
    RestakeHolds(v, op.owner, staked, s'.totalStaked, s'.lpEscrow);
    assert s' == Restaked(v.s, op.owner, staked, s'.totalStaked, s'.lpEscrow);
  }

  lemma ClaimHolds(w: World, op: Op)
    requires Inv(w) && op.ClaimOp? && Apply(w.s, op).Ok?
    ensures Inv(Step(w, op))
  {
    hide Inv, Touch, Touched, Apply;
    PrologueFirst(w.s, op);
    TouchedShape(w, op.owner, op.now);
    var v, s' := Touched(w, op.owner, op.now), Apply(w.s, op).value;
    var i := FarmIndex(v.s.farms, op.mint);
    assert s'.positions == v.s.positions[op.owner := CashedIn(v.s.positions[op.owner], i)];
    PayHolds(v, op.owner, i, s');
  }

  lemma StepHolds(w: World, op: Op)
    requires Inv(w)
    ensures Inv(Step(w, op))
  {
    if Apply(w.s, op).Ok? {
      match op
      case StakeOp(_, _, _) => StakeHolds(w, op);
      case UnstakeOp(_, _, _) => StakeHolds(w, op);
      case ClaimOp(_, _, _) => ClaimHolds(w, op);
      case AddFarmOp(mint, rate, expiry) => AddFarmHolds(w, Farm(mint, rate, expiry, 0));
      case RefillOp(_, _) => SameBooksHold(w, Apply(w.s, op).value);
      case ReallocOp(_) => SameBooksHold(w, Apply(w.s, op).value);
    }
  }
}
