/**
 One farm against a simple reference ledger.

 The program credits a position lazily, from the growth of one index. The reference ledger splits
 every emission pro rata at the moment it accrues. This module relates the two for a single farm
 and any number of positions; nothing in it is stored by the program.
 */
module FarmLedger {
  import opened Foundations
  import opened MapSums
  import ShareSums
  import opened Numbers
  import opened RealFacts
  import opened Rewards

  /** A position in the reference ledger: its exact share, what it was paid, and how far rounding may hold it back. */
  datatype Entry = Entry(exact: real, claimed: nat, tolerance: real)

  const NO_ENTRY := Entry(0.0, 0, 0.0)

  /** One position as one farm sees it. */
  datatype Account = Account(staked: nat, tracker: Tracker, entry: Entry)

  type Accounts = map<Pubkey, Account>

  /**
   What a farm has emitted and paid. `dust` adds up the total stake at every accrual, in 1e-12 of a
   reward token; `forfeited` adds up the tokens that saturating credits dropped.
   */
  datatype Totals = Totals(emitted: nat, claimed: nat, settlements: nat, dust: nat, forfeited: nat)

  const NO_TOTALS := Totals(0, 0, 0, 0, 0)

  // ---------- The reference ledger's steps ----------

  /** The exact ledger gives a position its part of an emission, for the stake it has at that moment. */
  function Share(e: Entry, emission: nat, staked: nat, total: nat): Entry
    requires total > 0
  {
    e.(exact := e.exact + ShareSums.Part(emission as real / total as real, staked),
       tolerance := e.tolerance + staked as real / ONE as real)
  }

  /** The part of a credit that a saturating addition drops. */
  function Forfeit(farm: Farm, t: Tracker, staked: nat): nat {
    t.claimable + Earned(farm, t.lastSeen, staked) - SatAdd(t.claimable, Earned(farm, t.lastSeen, staked))
  }

  function SettleEntry(e: Entry, forfeit: nat): Entry {
    e.(tolerance := e.tolerance + 1.0 + forfeit as real)
  }

  function SettleAccount(farm: Farm, a: Account): Account {
    Account(a.staked, SettledTracker(farm, a.tracker, a.staked),
            SettleEntry(a.entry, Forfeit(farm, a.tracker, a.staked)))
  }

  function PayAccount(a: Account): Account {
    Account(a.staked, a.tracker.(claimable := 0), a.entry.(claimed := a.entry.claimed + a.tracker.claimable))
  }

  // ---------- What must hold ----------

  /** What a farm owes a position, in 1e-12 of a reward token: credited, plus accrued since it was last settled. */
  ghost function Owed(farm: Farm, a: Account): int {
    ONE * a.tracker.claimable + a.staked * (farm.index - a.tracker.lastSeen)
  }

  ghost function OwedAll(farm: Farm, acc: Accounts): map<Pubkey, int> {
    map u | u in acc :: Owed(farm, acc[u])
  }

  ghost function Stakes(acc: Accounts): map<Pubkey, int> {
    map u | u in acc :: acc[u].staked
  }

  /** What the growth of an index brings a stake, in tokens. */
  function Pending(staked: nat, growth: int): real {
    (staked * growth) as real / ONE as real
  }

  /** The program's view of a position's reward, in tokens: paid, claimable and pending. */
  ghost function Lazy(farm: Farm, a: Account): real {
    (a.entry.claimed + a.tracker.claimable) as real + Pending(a.staked, farm.index - a.tracker.lastSeen)
  }

  /** The index never credits a position above its exact share, nor below it by more than the tolerance. */
  ghost predicate Faithful(farm: Farm, a: Account) {
    && a.tracker.lastSeen <= farm.index
    && a.tracker.claimable <= U64_MAX
    && Lazy(farm, a) <= a.entry.exact <= Lazy(farm, a) + a.entry.tolerance
  }

  /** Everything paid or still owed is covered by what was emitted, and falls short of it by rounding dust only. */
  ghost predicate Conserved(farm: Farm, t: Totals, acc: Accounts) {
    var accounted := ONE * t.claimed + Sum(OwedAll(farm, acc));
    accounted <= ONE * t.emitted <= accounted + ONE * (t.settlements + t.forfeited) + t.dust
  }

  ghost function Exacts(acc: Accounts): map<Pubkey, real> {
    map u | u in acc :: acc[u].entry.exact
  }

  /** The reference ledger hands out each emission completely. */
  ghost predicate Complete(t: Totals, acc: Accounts) {
    ShareSums.Sum(Exacts(acc)) == t.emitted as real
  }

  ghost predicate FarmInv(farm: Farm, t: Totals, acc: Accounts) {
    && (forall u :: u in acc ==> Faithful(farm, acc[u]))
    && Conserved(farm, t, acc)
    && Complete(t, acc)
  }

  // ---------- Rounding ----------

  /**
   One accrual gives all positions together at most the emission, and misses less than the total stake in
   1e-12 units.
   */
  lemma AccrualBounds(emission: nat, total: nat)
    requires total > 0
    ensures total * FromRatio(emission, total) <= ONE * emission < total * FromRatio(emission, total) + total
  {
    FromRatioIsFloor(emission, total);
    DivBounds(emission * ONE, total);
  }

  /** One unit of stake is given between `d` and `d + 1` in 1e-12 of a token. */
  lemma UnitShare(emission: nat, total: nat, d: nat)
    requires total > 0 && total * d <= ONE * emission <= total * d + total
    ensures d as real <= ONE as real * (emission as real / total as real) <= d as real + 1.0
  {
    var t, e := total as real, emission as real;
    var c := e / t;
    var x := ONE as real * c;
    QuotientTimes(e, t);
    Regroup(t, ONE as real, c);
    assert (total * d) as real == t * d as real;
    DistributeReal(t, d as real, 1.0);
    CancelReal(t, d as real, x, (total * d) as real, ONE as real * e);
    CancelReal(t, x, d as real + 1.0, ONE as real * e, (total * d + total) as real);
  }

  lemma ShareBounds(emission: nat, staked: nat, total: nat)
    requires total > 0
    ensures var lazy := Pending(staked, FromRatio(emission, total));
            lazy <= ShareSums.Part(emission as real / total as real, staked) <= lazy + staked as real / ONE as real
  {
    hide FromRatio;
    var d, c, s := FromRatio(emission, total), emission as real / total as real, staked as real;
    AccrualBounds(emission, total);
    UnitShare(emission, total, d);
    var x := ONE as real * c;
    MulMonoReal(s, d as real, x);
    MulMonoReal(s, x, d as real + 1.0);
    DistributeReal(s, d as real, 1.0);
    assert s * d as real == (staked * d) as real;
    Regroup(s, ONE as real, c);
  }

  lemma EarnedBounds(farm: Farm, t: Tracker, staked: nat)
    requires t.lastSeen <= farm.index
    ensures ONE * Earned(farm, t.lastSeen, staked) <= staked * (farm.index - t.lastSeen)
                                                   < ONE * Earned(farm, t.lastSeen, staked) + ONE
  {
    FloorMulNatural(farm.index - t.lastSeen, staked);
    DivBounds((farm.index - t.lastSeen) * staked, ONE);
  }

  // ---------- One position ----------

  function Raised(farm: Farm, d: nat): Farm {
    farm.(index := farm.index + d)
  }

  lemma LazyGrows(farm: Farm, a: Account, d: nat)
    ensures Lazy(Raised(farm, d), a) == Lazy(farm, a) + Pending(a.staked, d)
  {
    Distribute(a.staked, farm.index - a.tracker.lastSeen, d);
  }

  lemma ShareFaithful(farm: Farm, a: Account, emission: nat, total: nat)
    requires total > 0
    requires Faithful(farm, a)
    ensures Faithful(Raised(farm, FromRatio(emission, total)), a.(entry := Share(a.entry, emission, a.staked, total)))
  {
    hide FromRatio, Lazy, Pending, ShareSums.Part;
    var d, b := FromRatio(emission, total), a.(entry := Share(a.entry, emission, a.staked, total));
    ShareBounds(emission, a.staked, total);
    LazyGrows(farm, a, d);
    LazySame(Raised(farm, d), a, b);
  }

  lemma LazySame(farm: Farm, a: Account, b: Account)
    requires b.staked == a.staked && b.tracker == a.tracker && b.entry.claimed == a.entry.claimed
    ensures Lazy(farm, b) == Lazy(farm, a)
  {
  }

  lemma SettleOwed(farm: Farm, a: Account)
    requires a.tracker.lastSeen <= farm.index
    ensures var after := Owed(farm, SettleAccount(farm, a)) + ONE * Forfeit(farm, a.tracker, a.staked);
            after <= Owed(farm, a) <= after + ONE
  {
    hide Earned;
    EarnedBounds(farm, a.tracker, a.staked);
  }

  lemma SettleLazy(farm: Farm, a: Account)
    requires a.tracker.lastSeen <= farm.index
    ensures var after := Lazy(farm, SettleAccount(farm, a));
            after <= Lazy(farm, a) <= after + Forfeit(farm, a.tracker, a.staked) as real + 1.0
  {
    hide Earned;
    EarnedBounds(farm, a.tracker, a.staked);
  }

  lemma SettleFaithful(farm: Farm, a: Account)
    requires Faithful(farm, a)
    ensures Faithful(farm, SettleAccount(farm, a))
  {
    hide Lazy, Earned;
    SettleLazy(farm, a);
  }

  /** At the current index an account is owed what it has been credited, whatever its stake. */
  lemma RestakeSame(farm: Farm, a: Account, staked: nat)
    requires a.tracker.lastSeen == farm.index
    ensures Owed(farm, a.(staked := staked)) == Owed(farm, a)
    ensures Lazy(farm, a.(staked := staked)) == Lazy(farm, a)
  {
  }

  lemma FreshAccount(farm: Farm, staked: nat)
    requires farm.index == 0 || staked == 0
    ensures Owed(farm, Account(staked, FRESH, NO_ENTRY)) == 0
    ensures Faithful(farm, Account(staked, FRESH, NO_ENTRY))
  {
  }

  // ---------- All positions of the farm ----------

  lemma PutKeeps(farm: Farm, t: Totals, acc: Accounts, owner: Pubkey, a: Account, t': Totals)
    requires FarmInv(farm, t, acc) && Faithful(farm, a)
    requires var before := if owner in acc then Owed(farm, acc[owner]) else 0;
             var after := Owed(farm, a) + ONE * (t'.claimed - t.claimed);
             after <= before <= after + ONE * (t'.settlements - t.settlements + t'.forfeited - t.forfeited)
    requires t'.emitted == t.emitted && t'.dust == t.dust
    requires a.entry.exact == if owner in acc then acc[owner].entry.exact else 0.0
    ensures FarmInv(farm, t', acc[owner := a])
  {
    hide Owed, Faithful;
    assert Exacts(acc[owner := a]) == Exacts(acc)[owner := a.entry.exact];
    ShareSums.SumPut(Exacts(acc), owner, a.entry.exact);
    assert OwedAll(farm, acc[owner := a]) == OwedAll(farm, acc)[owner := Owed(farm, a)];
    SumPut(OwedAll(farm, acc), owner, Owed(farm, a));
  }

  lemma OpenKeeps(farm: Farm, t: Totals, acc: Accounts, owner: Pubkey)
    requires FarmInv(farm, t, acc) && owner !in acc
    ensures FarmInv(farm, t, acc[owner := Account(0, FRESH, NO_ENTRY)])
  {
    hide FarmInv, Faithful, Owed;
    FreshAccount(farm, 0);
    PutKeeps(farm, t, acc, owner, Account(0, FRESH, NO_ENTRY), t);
  }

  lemma SettleKeeps(farm: Farm, t: Totals, acc: Accounts, owner: Pubkey)
    requires FarmInv(farm, t, acc) && owner in acc
    ensures FarmInv(farm, t.(settlements := t.settlements + 1,
                             forfeited := t.forfeited + Forfeit(farm, acc[owner].tracker, acc[owner].staked)),
                    acc[owner := SettleAccount(farm, acc[owner])])
  {
    hide Conserved, Owed, Earned, Forfeit, SettledTracker, Lazy;
    SettleFaithful(farm, acc[owner]);
    SettleOwed(farm, acc[owner]);
    PutKeeps(farm, t, acc, owner, SettleAccount(farm, acc[owner]),
             t.(settlements := t.settlements + 1,
                forfeited := t.forfeited + Forfeit(farm, acc[owner].tracker, acc[owner].staked)));
  }

  lemma RestakeKeeps(farm: Farm, t: Totals, acc: Accounts, owner: Pubkey, staked: nat)
    requires FarmInv(farm, t, acc) && owner in acc && acc[owner].tracker.lastSeen == farm.index
    ensures FarmInv(farm, t, acc[owner := acc[owner].(staked := staked)])
  {
    hide Conserved, Owed, Lazy;
    RestakeSame(farm, acc[owner], staked);
    PutKeeps(farm, t, acc, owner, acc[owner].(staked := staked), t);
  }

  lemma PayKeeps(farm: Farm, t: Totals, acc: Accounts, owner: Pubkey)
    requires FarmInv(farm, t, acc) && owner in acc
    ensures FarmInv(farm, t.(claimed := t.claimed + acc[owner].tracker.claimable), acc[owner := PayAccount(acc[owner])])
  {
    hide Conserved;
    assert Faithful(farm, PayAccount(acc[owner]));
    PutKeeps(farm, t, acc, owner, PayAccount(acc[owner]), t.(claimed := t.claimed + acc[owner].tracker.claimable));
  }

  ghost function ShareAll(acc: Accounts, emission: nat, total: nat): Accounts
    requires total > 0
  {
    map u | u in acc :: acc[u].(entry := Share(acc[u].entry, emission, acc[u].staked, total))
  }

  /** Raising the index by `d` raises what is owed in total by `d` per unit of stake. */
  lemma RaiseOwes(farm: Farm, acc: Accounts, acc': Accounts, d: nat)
    requires acc'.Keys == acc.Keys
    requires forall u :: u in acc ==> acc'[u].staked == acc[u].staked && acc'[u].tracker == acc[u].tracker
    ensures Sum(OwedAll(Raised(farm, d), acc')) == Sum(OwedAll(farm, acc)) + d * Sum(Stakes(acc))
  {
    hide Owed;
    var grown := map u | u in acc :: d * acc[u].staked;
    SumScaled(Stakes(acc), d, grown);
    forall u | u in acc ensures Owed(Raised(farm, d), acc'[u]) == Owed(farm, acc[u]) + grown[u] {
      RaiseOwesOne(farm, acc[u], acc'[u], d);
    }
    SumPlus(OwedAll(farm, acc), grown, OwedAll(Raised(farm, d), acc'));
  }

  lemma RaiseOwesOne(farm: Farm, a: Account, a': Account, d: nat)
    requires a'.staked == a.staked && a'.tracker == a.tracker
    ensures Owed(Raised(farm, d), a') == Owed(farm, a) + d * a.staked
  {
    Distribute(a.staked, farm.index - a.tracker.lastSeen, d);
  }

  lemma AccrueKeeps(farm: Farm, t: Totals, acc: Accounts, emission: nat, total: nat)
    requires FarmInv(farm, t, acc) && total > 0 && total == Sum(Stakes(acc))
    ensures FarmInv(Raised(farm, FromRatio(emission, total)),
                    t.(emitted := t.emitted + emission, dust := t.dust + total), ShareAll(acc, emission, total))
  {
    hide Faithful, FromRatio, Share, OwedAll, Stakes, Exacts;
    ShareComplete(acc, emission, total);
    forall u | u in acc
      ensures Faithful(Raised(farm, FromRatio(emission, total)),
                       acc[u].(entry := Share(acc[u].entry, emission, acc[u].staked, total)))
    {
      ShareFaithful(farm, acc[u], emission, total);
    }
    RaiseOwes(farm, acc, ShareAll(acc, emission, total), FromRatio(emission, total));
    AccrualBounds(emission, total);
  }

  lemma PartsAddUp(acc: Accounts, acc': Accounts, c: real)
    requires acc'.Keys == acc.Keys
    requires forall u :: u in acc ==> acc'[u].entry.exact == acc[u].entry.exact + ShareSums.Part(c, acc[u].staked)
    ensures ShareSums.Sum(Exacts(acc')) == ShareSums.Sum(Exacts(acc)) + ShareSums.Part(c, Sum(Stakes(acc)))
  {
    hide ShareSums.Part;
    var shares := map u | u in acc :: ShareSums.Part(c, acc[u].staked);
    ShareSums.SumOfParts(shares, Stakes(acc), c);
    ShareSums.SumPlus(Exacts(acc), shares, Exacts(acc'));
  }

  lemma ShareComplete(acc: Accounts, emission: nat, total: nat)
    requires total > 0 && total == Sum(Stakes(acc))
    ensures ShareSums.Sum(Exacts(ShareAll(acc, emission, total))) == ShareSums.Sum(Exacts(acc)) + emission as real
  {
    QuotientTimes(emission as real, total as real);
    assert ShareSums.Part(emission as real / total as real, total) == emission as real;
    hide ShareSums.Part, Exacts;
    PartsAddUp(acc, ShareAll(acc, emission, total), emission as real / total as real);
  }

  lemma NewFarmHolds(farm: Farm, acc: Accounts)
    requires farm.index == 0
    requires forall u :: u in acc ==> acc[u].tracker == FRESH && acc[u].entry == NO_ENTRY
    ensures FarmInv(farm, NO_TOTALS, acc)
  {
    hide Faithful, Owed;
    forall u | u in acc ensures Faithful(farm, acc[u]) && Owed(farm, acc[u]) == 0 {
      FreshAccount(farm, acc[u].staked);
    }
    SumZero(OwedAll(farm, acc));
    NothingShared(Exacts(acc));
  }

  lemma {:induction false} NothingShared<K(!new)>(m: map<K, real>)
    requires forall k :: k in m ==> m[k] == 0.0
    ensures ShareSums.Sum(m) == 0.0
    decreases |m|
  {
    if m != map[] {
      var k :| k in m;
      ShareSums.SumRemove(m, k);
      NothingShared(m - {k});
    }
  }

  lemma {:induction false} SumZero<K(!new)>(m: map<K, int>)
    requires forall k :: k in m ==> m[k] == 0
    ensures Sum(m) == 0
    decreases |m|
  {
    if m != map[] {
      var k :| k in m;
      SumRemove(m, k);
      SumZero(m - {k});
    }
  }
}
