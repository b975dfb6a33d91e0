/** When the stored PT backing, the treasury and the credited interest together fit the escrow. */
module VaultBacking {
  import opened Foundations
  import opened Numbers
  import opened Vaults
  import opened VaultLedger
  import opened VaultSolvency
  import opened VaultTheorems

  /** The program's own balance invariant. */
  predicate BalanceHolds(v: Vault) {
    v.syForPt + v.treasury + v.uncollected <= v.totalSy
  }

  // ---------- Collecting interest ----------

  /** An accepted collection from a vault whose balance holds leaves one whose balance holds. */
  predicate CollectKeeps(s: State, user: Pubkey, amount: nat) {
    BalanceHolds(s.vault) && CollectInterest(s, user, amount).Ok? ==>
      BalanceHolds(CollectInterest(s, user, amount).value.vault)
  }

  /** Collecting keeps the balance exactly when the interest it newly credits fits what was left over. */
  lemma CollectKeepsIff(s: State, user: Pubkey, amount: nat)
    requires BalanceHolds(s.vault) && CollectInterest(s, user, amount).Ok?
    ensures user in s.users
    ensures var v := s.vault;
            BalanceHolds(CollectInterest(s, user, amount).value.vault)
            <==> EarnedBy(v, s.users[user]) <= v.totalSy - v.treasury - v.uncollected - v.syForPt
  {
    assert Emergency(s.vault) ==> EarnedBy(s.vault, s.users[user]) == 0;
    hide EarnedBy;
  }

  /** A collection would credit nothing: a guard on the accounts as they stand before the call. */
  predicate NothingToCredit(v: Vault, p: YieldPosition) {
    || v.final == 0 || Emergency(v) || p.yt == 0 || p.index == 0 || p.index >= v.final
    || Growth(v, p) < ONE
    || (v.lastSeen > v.final && Growth(v, p) / ONE * Div(v.final, v.lastSeen) < ONE)
  }

  /** What the claim of a position gives up at the final rate, in 1e-12 SY. */
  function Growth(v: Vault, p: YieldPosition): nat
    requires 0 < p.index < v.final
  {
    RecipAntitone(p.index, v.final);
    p.yt * (Recip(p.index) - Recip(v.final))
  }

  lemma EarnsNothingIff(v: Vault, p: YieldPosition)
    requires v.final > 0
    ensures EarnedBy(v, p) == 0 <==> NothingToCredit(v, p)
  {
    if !Emergency(v) && p.yt > 0 && 0 < p.index < v.final {
      RecipAntitone(p.index, v.final);
      var d := Recip(p.index) - Recip(v.final);
      FloorMulNatural(d, p.yt);
      assert d * p.yt == p.yt * d;
      QuotientZeroIff(Growth(v, p));
      var e := Growth(v, p) / ONE;
      assert EarnedSy(p.yt, p.index, v.final) == e;
      hide EarnedSy, Growth, Recip;
      ScaledZeroIff(v, e);
    } else if v.lastSeen > v.final {
      FloorMulNatural(Div(v.final, v.lastSeen), 0);
    }
  }

  lemma QuotientZeroIff(n: nat)
    ensures n / ONE == 0 <==> n < ONE
  {
  }

  lemma ScaledZeroIff(v: Vault, e: nat)
    requires v.final > 0
    ensures ScaleToCurrent(e, v.final, v.lastSeen) == 0
       <==> e == 0 || (v.lastSeen > v.final && e * Div(v.final, v.lastSeen) < ONE)
  {
    if v.lastSeen > v.final {
      FloorMulNatural(Div(v.final, v.lastSeen), e);
      hide Div;
      assert Div(v.final, v.lastSeen) * e == e * Div(v.final, v.lastSeen);
      QuotientZeroIff(e * Div(v.final, v.lastSeen));
    }
  }

  /** Whatever the escrow holds and whatever is collected, the balance is kept exactly when nothing is credited. */
  lemma CollectAlwaysKeepsIff(s: State, user: Pubkey)
    requires user in s.users
    ensures (forall totalSy: nat, amount: nat :: CollectKeeps(WithEscrow(s, totalSy), user, amount))
       <==> NothingToCredit(s.vault, s.users[user])
  {
    var v, p := s.vault, s.users[user];
    if v.final > 0 {
      EarnsNothingIff(v, p);
    }
    hide EarnedBy, NothingToCredit;
    if NothingToCredit(v, p) {
      forall totalSy: nat, amount: nat ensures CollectKeeps(WithEscrow(s, totalSy), user, amount) {
        if v.final > 0 {
          SameCredit(v, v.(totalSy := totalSy), p);
        }
      }
    } else {
      BalancedCollect(s, user);
    }
  }

  function WithEscrow(s: State, totalSy: nat): State {
    s.(vault := s.vault.(totalSy := totalSy))
  }

  lemma SameCredit(v: Vault, v': Vault, p: YieldPosition)
    requires v' == v.(totalSy := v'.totalSy)
    ensures EarnedBy(v', p) == EarnedBy(v, p)
  {
  }

  /** With nothing left over in the escrow, even collecting nothing breaks the balance when it credits something. */
  lemma BalancedCollect(s: State, user: Pubkey)
    requires user in s.users && !NothingToCredit(s.vault, s.users[user])
    ensures !CollectKeeps(WithEscrow(s, s.vault.syForPt + s.vault.treasury + s.vault.uncollected), user, 0)
  {
    var v := s.vault;
    EarnsNothingIff(v, s.users[user]);
    SameCredit(v, v.(totalSy := v.syForPt + v.treasury + v.uncollected), s.users[user]);
    hide EarnedBy;
  }

  // ---------- Whole runs ----------

  /** Every collection of the run credits nothing new: the position was staged since the rate last moved. */
  ghost predicate QuietCollects(w: World, ops: seq<Op>)
    decreases |ops|
  {
    ops != [] ==>
      && (ops[0].CollectOp? && ops[0].user in w.s.users ==> NothingToCredit(w.s.vault, w.s.users[ops[0].user]))
      && QuietCollects(Step(w, ops[0]), ops[1..])
  }

  lemma StepBalance(w: World, op: Op)
    requires BalanceHolds(w.s.vault)
    requires op.CollectOp? && op.user in w.s.users ==> NothingToCredit(w.s.vault, w.s.users[op.user])
    requires var v := Step(w, op).s.vault; v.treasury + v.uncollected <= v.totalSy
    ensures BalanceHolds(Step(w, op).s.vault)
  {
    hide OpDust, NothingToCredit;
    if Apply(w.s, op).Ok? {
      if op.CollectOp? {
        if w.s.vault.final > 0 {
          EarnsNothingIff(w.s.vault, w.s.users[op.user]);
        }
        CollectKeepsIff(w.s, op.user, op.amount);
      } else if op.StripOp? || op.MergeOp? || op.StageOp? || op.DepositOp? || op.WithdrawOp? {
        hide Apply;
        FreshBacking(w.s, op);
      }
    }
  }

  lemma {:induction false} RunBalance(w: World, ops: seq<Op>)
    requires LiveInv(w) && w.dust == 0 && WhileActive(w.s.vault, ops) && SafeStrips(ops)
    requires QuietCollects(w, ops) && BalanceHolds(w.s.vault)
    ensures BalanceHolds(Run(w, ops).s.vault)
    decreases |ops|
  {
    if ops != [] {
      var next := Step(w, ops[0]);
      StepLive(w, ops[0]);
      StepLifetime(w, ops[0]);
      SafeRunHasNoDust(w, [ops[0]]);
      assert Run(w, [ops[0]]) == next;
      NoDustOwesWithin(next);
      hide LiveInv, Step, NothingToCredit, SafeStrips;
      StepBalance(w, ops[0]);
      assert SafeStrips(ops[1..]) by { SafeRest(ops); }
      RunBalance(next, ops[1..]);
    }
  }

  lemma SafeRest(ops: seq<Op>)
    requires ops != [] && SafeStrips(ops)
    ensures SafeStrips(ops[1..])
  {
  }

  lemma NoDustOwesWithin(w: World)
    requires LiveInv(w) && w.dust == 0
    ensures w.s.vault.treasury + w.s.vault.uncollected <= w.s.vault.totalSy
  {
    ClaimsNonNegative(w.s);
    hide Claims;
  }

  /**
   So from a new vault, at rates whose reciprocal was not rounded up, the balance holds throughout every
   run before maturity in which interest is staged before it is collected.
   */
  lemma BalanceHoldsOnQuietRuns(startTs: nat, duration: nat, maxPySupply: nat, ops: seq<Op>)
    requires WhileActive(NewVault(startTs, duration, maxPySupply).vault, ops) && SafeStrips(ops)
    requires QuietCollects(Genesis(startTs, duration, maxPySupply), ops)
    ensures BalanceHolds(Run(Genesis(startTs, duration, maxPySupply), ops).s.vault)
  {
    GenesisLive(startTs, duration, maxPySupply);
    RunBalance(Genesis(startTs, duration, maxPySupply), ops);
  }
}
