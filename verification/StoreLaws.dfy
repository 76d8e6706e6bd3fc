/**
  What every run of the store keeps: the locked pool is the unpaid principal of
  the active plans, no balance is overdrawn, credit is conserved between
  balances, open reservations and settled costs, and the fault pool stays solvent.
 */
module StoreLaws {
  import opened Collections
  import opened Money
  import opened Balances
  import opened LockPlans
  import opened FaultLedger
  import opened Store
  import opened TaskLaws

  datatype Op =
    | CreditOp(a: Account, p: Pool, x: real)
    | SpendOp(a: Account, x: real)
    | ReserveOp(a: Account, id: TaskId, estimate: real)
    | FinalizeOp(id: TaskId, actual: real)
    | LockOp(a: Account, amount: real, days: int, threshold: real, key: Option<KeyId>, now: int)
    | ProcessOp(who: Option<Account>, force: bool, now: int)
    | EarlyUnlockOp(a: Account, plan: nat)
    | KeyFailureOp(failed: KeyId)
    | FaultCreditOp(amount: real)
    | FaultDebitOp(amount: real)

  function Step(s: State, op: Op): State {
    match op
    case CreditOp(a, p, x) => CreditPool(s, a, p, x)
    case SpendOp(a, x) => SpendFromPools(s, a, x)
    case ReserveOp(a, id, estimate) => ReserveForTask(s, a, id, estimate).0
    case FinalizeOp(id, actual) => FinalizeTask(s, id, actual).0
    case LockOp(a, amount, days, threshold, key, now) => LockContribution(s, a, amount, days, threshold, key, now).0
    case ProcessOp(who, force, now) => ProcessInstallments(s, who, force, now)
    case EarlyUnlockOp(a, plan) => EarlyUnlock(s, a, plan).0
    case KeyFailureOp(failed) => ForfeitKey(s, failed, |s.plans|)
    case FaultCreditOp(amount) => CreditFaultPool(s, amount)
    case FaultDebitOp(amount) => DisburseFromFaultPool(s, amount)
  }

  function Run(s: State, ops: seq<Op>): State {
    if |ops| == 0 then s else Step(Run(s, ops[..|ops| - 1]), ops[|ops| - 1])
  }

  // ---- the locked pool

  function LockedShare(row: Installment, a: Account): (r: int)
    ensures r >= 0
  {
    if row.account == a && row.status == Active then UnpaidPrincipal(row) else 0
  }

  /** Unpaid principal over the account's active plans. */
  function LockedDue(plans: seq<Installment>, a: Account): (r: int)
    ensures r >= 0
  {
    if |plans| == 0 then 0 else LockedDue(plans[..|plans| - 1], a) + LockedShare(plans[|plans| - 1], a)
  }

  lemma {:induction false} LockedDueAppend(plans: seq<Installment>, row: Installment, a: Account)
    ensures LockedDue(plans + [row], a) == LockedDue(plans, a) + LockedShare(row, a)
  {
    assert (plans + [row])[..|plans|] == plans;
  }

  lemma {:induction false} LockedDueUpdate(plans: seq<Installment>, i: nat, row: Installment, a: Account)
    requires i < |plans|
    ensures LockedDue(plans[i := row], a) == LockedDue(plans, a) - LockedShare(plans[i], a) + LockedShare(row, a)
    ensures LockedDue(plans, a) >= LockedShare(plans[i], a)
  {
    var last := |plans| - 1;
    if i < last {
      assert plans[i := row][..last] == plans[..last][i := row];
      LockedDueUpdate(plans[..last], i, row, a);
    } else {
      assert plans[i := row][..last] == plans[..last];
    }
  }

  predicate PlansLawful(plans: seq<Installment>) {
    forall row <- plans :: Lawful(row) && OnGrid(row.total)
  }

  ghost predicate LockedMatches(t: Table, plans: seq<Installment>) {
    && (forall row <- plans :: (row.account, ContributionLocked) in t)
    && (forall a :: Bal(t, a, ContributionLocked) == LockedDue(plans, a) as real)
  }

  ghost predicate LockInv(t: Table, plans: seq<Installment>) {
    NonNegative(t) && PlansLawful(plans) && LockedMatches(t, plans)
  }

  /** Under the invariant the locked pool covers whatever an active plan still owes. */
  lemma {:induction false} LockedCovers(t: Table, plans: seq<Installment>, i: nat)
    requires LockInv(t, plans) && i < |plans| && plans[i].status == Active
    ensures CanDebit(t, plans[i].account, ContributionLocked, UnpaidPrincipal(plans[i]) as real)
    ensures CanDebit(t, plans[i].account, ContributionLocked, NextPrincipal(plans[i]) as real)
  {
    var row := plans[i];
    assert row in plans;
    UnpaidIsRest(row);
    LockedDueUpdate(plans, i, row, row.account);
  }

  /** Replacing a plan and moving the same principal out of the locked pool keeps the match. */
  lemma {:induction false} LockedMoves(t: Table, plans: seq<Installment>, u: Table, i: nat, row: Installment)
    requires LockedMatches(t, plans) && i < |plans|
    requires row.account == plans[i].account
    requires t.Keys <= u.Keys
    requires forall a :: Bal(t, a, ContributionLocked) - Bal(u, a, ContributionLocked)
                         == (LockedShare(plans[i], a) - LockedShare(row, a)) as real
    ensures LockedMatches(u, plans[i := row])
  {
    forall a ensures Bal(u, a, ContributionLocked) == LockedDue(plans[i := row], a) as real {
      LockedDueUpdate(plans, i, row, a);
    }
    forall r <- plans[i := row] ensures (r.account, ContributionLocked) in u {
      assert r == row || r in plans;
      assert plans[i] in plans;
    }
  }

  lemma {:induction false} LawfulUpdate(plans: seq<Installment>, i: nat, row: Installment)
    requires PlansLawful(plans) && i < |plans| && Lawful(row) && OnGrid(row.total)
    ensures PlansLawful(plans[i := row])
  {
    forall r <- plans[i := row] ensures Lawful(r) && OnGrid(r.total) {
      assert r == row || r in plans;
    }
  }

  /** A plan after a payment pass in which nothing is refused. */
  function AfterPass(row: Installment, who: Option<Account>, force: bool, now: int): Installment {
    if Payable(row, who, force, now) then PaidRow(row, now) else row
  }

  /** What a payment does to the plan: still lawful, owing less by the principal paid. */
  lemma {:induction false} PaidRowOwesLess(row: Installment, now: int)
    requires Lawful(row) && OnGrid(row.total) && row.status == Active
    ensures Lawful(PaidRow(row, now)) && PaidRow(row, now).total == row.total
    ensures forall a :: LockedShare(row, a) - LockedShare(PaidRow(row, now), a)
                        == if a == row.account then NextPrincipal(row) else 0
    ensures NextPrincipal(row) >= 0 && NextReward(row) >= 0
  {
    UnpaidIsRest(row);
    RewardTotalNonNegative(row);
    RewardPaymentsNonNegative(RewardTotal(row), row.paid);
    if row.paid < PERIODS - 1 {
      assert UnpaidPrincipal(PaidRow(row, now)) == UnpaidPrincipal(row.(paid := row.paid + 1));
    }
  }

  lemma {:induction false} PaidTableKeeps(t: Table, row: Installment)
    requires NonNegative(t) && NextPrincipal(row) >= 0 && NextReward(row) >= 0
    requires CanDebit(t, row.account, ContributionLocked, NextPrincipal(row) as real)
    ensures NonNegative(PaidTable(t, row)) && t.Keys <= PaidTable(t, row).Keys
    ensures forall a :: Bal(t, a, ContributionLocked) - Bal(PaidTable(t, row), a, ContributionLocked)
                        == (if a == row.account then NextPrincipal(row) else 0) as real
  {
    assert NonNegative(Debit(t, row.account, ContributionLocked, NextPrincipal(row) as real));
  }

  /** A payment is never refused, and it keeps the invariant. */
  lemma {:induction false} PayRowKeeps(p: Payments, i: nat, who: Option<Account>, force: bool, now: int)
    requires i < |p.plans| && LockInv(p.table, p.plans)
    ensures LockInv(PayRow(p, i, who, force, now).table, PayRow(p, i, who, force, now).plans)
  {
    var row := p.plans[i];
    if Payable(row, who, force, now) {
      LockedCovers(p.table, p.plans, i);
      assert row in p.plans;
      PaidRowOwesLess(row, now);
      PaidTableKeeps(p.table, row);
      LawfulUpdate(p.plans, i, PaidRow(row, now));
      LockedMoves(p.table, p.plans, PaidTable(p.table, row), i, PaidRow(row, now));
    }
  }

  // ---- flows: what an operation brings into an account's two kinds of credit

  /** Contribution credit, free or locked. */
  function Contributed(t: Table, a: Account): real {
    Bal(t, a, ContributionUnlocked) + Bal(t, a, ContributionLocked)
  }

  /** Principal falling due to an account in one payment pass over the first n rows. */
  function PrincipalFalling(plans: seq<Installment>, n: nat, a: Account, who: Option<Account>, force: bool,
                            now: int): int
    requires n <= |plans|
  {
    if n == 0 then 0
    else PrincipalFalling(plans, n - 1, a, who, force, now)
         + if plans[n - 1].account == a && Payable(plans[n - 1], who, force, now)
             then NextPrincipal(plans[n - 1]) else 0
  }

  /** Reward falling due likewise. */
  function RewardFalling(plans: seq<Installment>, n: nat, a: Account, who: Option<Account>, force: bool, now: int): int
    requires n <= |plans|
  {
    if n == 0 then 0
    else RewardFalling(plans, n - 1, a, who, force, now)
         + if plans[n - 1].account == a && Payable(plans[n - 1], who, force, now) then NextReward(plans[n - 1]) else 0
  }

  /** Unpaid principal of an account's active plans bound to a key, among the first n rows. */
  function PrincipalAtRisk(plans: seq<Installment>, n: nat, a: Account, key: KeyId): int
    requires n <= |plans|
  {
    if n == 0 then 0
    else PrincipalAtRisk(plans, n - 1, a, key) + if plans[n - 1].key == Some(key)
        then LockedShare(plans[n - 1], a) else 0
  }

  /** What an operation brings into the account's spendable credit from outside the task lifecycle. */
  function SpendableFlow(s: State, op: Op, a: Account): real {
    match op
    case CreditOp(b, p, x) => if a == b && p in SPEND_ORDER then Max(0.0, x) else 0.0
    case SpendOp(b, x) => if a == b && Spend(s.balances, a, x).Spent? then -(Due(x) as real) else 0.0
    case ProcessOp(who, force, now) =>
      (PrincipalFalling(s.plans, |s.plans|, a, who, force, now)
          + RewardFalling(s.plans, |s.plans|, a, who, force, now)) as real
    case _ => 0.0
  }

  /** What an operation brings into the account's contribution credit; locking moves it, and brings nothing. */
  function ContributionFlow(s: State, op: Op, a: Account): real {
    match op
    case CreditOp(b, p, x) => if a == b && p == ContributionUnlocked then Max(0.0, x) else 0.0
    case ProcessOp(who, force, now) => -(PrincipalFalling(s.plans, |s.plans|, a, who, force, now) as real)
    case EarlyUnlockOp(b, plan) =>
      if a == b && EarlyUnlock(s, b, plan).1.Exited? then -(Penalty(s.plans[plan]) as real) else 0.0
    case KeyFailureOp(failed) => -(PrincipalAtRisk(s.plans, |s.plans|, a, failed) as real)
    case _ => 0.0
  }

  // ---- the payment pass

  lemma {:induction false} PayRowPays(p: Payments, i: nat, who: Option<Account>, force: bool, now: int)
    requires i < |p.plans| && LockInv(p.table, p.plans)
    ensures PayRow(p, i, who, force, now).plans == p.plans[i := AfterPass(p.plans[i], who, force, now)]
  {
    if Payable(p.plans[i], who, force, now) { LockedCovers(p.table, p.plans, i); }
  }

  /** The rows before come first. */
  lemma {:induction false} PassNext(p: Payments, m: nat, n: nat, who: Option<Account>, force: bool, now: int,
                                    e: Payments, q: Payments)
    requires m < n == m + 1 <= |p.plans|
    requires e == PayRows(p, m, who, force, now) && q == PayRows(p, n, who, force, now)
    ensures |e.plans| == |p.plans| && e.plans[m] == p.plans[m] && q == PayRow(e, m, who, force, now)
  {
  }

  lemma {:induction false} PayRowsKeep(p: Payments, n: nat, who: Option<Account>, force: bool, now: int, q: Payments)
    requires n <= |p.plans| && LockInv(p.table, p.plans) && q == PayRows(p, n, who, force, now)
    ensures LockInv(q.table, q.plans)
    decreases n
  {
    if n > 0 {
      var m := n - 1;
      var e := PayRows(p, m, who, force, now);
      PassNext(p, m, n, who, force, now, e, q);
      PayRowsKeep(p, m, who, force, now, e);
      PayRowKeeps(e, m, who, force, now);
    }
  }

  /** The whole pass pays every payable row exactly once and refuses none. */
  lemma {:induction false} PayRowsPayAll(p: Payments, n: nat, who: Option<Account>, force: bool, now: int, i: nat,
                                         q: Payments)
    requires i < n <= |p.plans| && LockInv(p.table, p.plans) && q == PayRows(p, n, who, force, now)
    ensures q.plans[i] == AfterPass(p.plans[i], who, force, now)
    decreases n
  {
    var m := n - 1;
    var e := PayRows(p, m, who, force, now);
    PassNext(p, m, n, who, force, now, e, q);
    PayRowsKeep(p, m, who, force, now, e);
    PayRowPays(e, m, who, force, now);
    if i < m {
      PayRowsPayAll(p, m, who, force, now, i, e);
    }
  }

  /** From t to u: principal left the account's locked pool, principal and reward entered purchased. */
  predicate PaidOut(t: Table, u: Table, a: Account, principal: int, reward: int) {
    && Bal(u, a, Purchased) - Bal(t, a, Purchased) == (principal + reward) as real
    && Bal(t, a, ContributionLocked) - Bal(u, a, ContributionLocked) == principal as real
    && Bal(u, a, MonthlyGrant) == Bal(t, a, MonthlyGrant)
    && Bal(u, a, ContributionUnlocked) == Bal(t, a, ContributionUnlocked)
  }

  lemma {:induction false} PayRowFlow(p: Payments, i: nat, who: Option<Account>, force: bool, now: int, a: Account)
    requires i < |p.plans| && LockInv(p.table, p.plans)
    ensures var row := p.plans[i];
      var mine := row.account == a && Payable(row, who, force, now);
      PaidOut(p.table, PayRow(p, i, who, force, now).table, a,
              if mine then NextPrincipal(row) else 0, if mine then NextReward(row) else 0)
  {
    if Payable(p.plans[i], who, force, now) {
      LockedCovers(p.table, p.plans, i);
    }
  }

  lemma {:induction false} PaidOutAdds(t: Table, u: Table, v: Table, a: Account, p1: int, r1: int, p2: int, r2: int)
    requires PaidOut(t, u, a, p1, r1) && PaidOut(u, v, a, p2, r2)
    ensures PaidOut(t, v, a, p1 + p2, r1 + r2)
  {
  }

  lemma {:induction false} FallingNext(plans: seq<Installment>, m: nat, n: nat, a: Account, who: Option<Account>,
                                       force: bool, now: int)
    requires m < n == m + 1 <= |plans|
    ensures var mine := plans[m].account == a && Payable(plans[m], who, force, now);
      && PrincipalFalling(plans, n, a, who, force, now)
         == PrincipalFalling(plans, m, a, who, force, now) + (if mine then NextPrincipal(plans[m]) else 0)
      && RewardFalling(plans, n, a, who, force, now)
         == RewardFalling(plans, m, a, who, force, now) + (if mine then NextReward(plans[m]) else 0)
  {
  }

  /** Principal moves from the locked to the purchased pool; rewards come on top. */
  lemma {:induction false} PayRowsFlow(p: Payments, n: nat, who: Option<Account>, force: bool, now: int, a: Account,
                                       q: Payments)
    requires n <= |p.plans| && LockInv(p.table, p.plans) && q == PayRows(p, n, who, force, now)
    ensures PaidOut(p.table, q.table, a,
                    PrincipalFalling(p.plans, n, a, who, force, now), RewardFalling(p.plans, n, a, who, force, now))
    decreases n
  {
    if n > 0 {
      var m := n - 1;
      var e := PayRows(p, m, who, force, now);
      var row := p.plans[m];
      var mine := row.account == a && Payable(row, who, force, now);
      PassNext(p, m, n, who, force, now, e, q);
      PayRowsFlow(p, m, who, force, now, a, e);
      PayRowsKeep(p, m, who, force, now, e);
      PayRowFlow(e, m, who, force, now, a);
      PaidOutAdds(p.table, e.table, q.table, a,
                  PrincipalFalling(p.plans, m, a, who, force, now), RewardFalling(p.plans, m, a, who, force, now),
                  if mine then NextPrincipal(row) else 0, if mine then NextReward(row) else 0);
      FallingNext(p.plans, m, n, a, who, force, now);
    }
  }

  /** A payment pass keeps spendable credit whole. */
  lemma {:induction false} PassStaysWhole(p: Payments, n: nat, who: Option<Account>, force: bool, now: int, a: Account)
    requires n <= |p.plans| && LockInv(p.table, p.plans) && SpendableOnGrid(p.table, a)
    ensures SpendableOnGrid(PayRows(p, n, who, force, now).table, a)
  {
    PayRowsFlow(p, n, who, force, now, a, PayRows(p, n, who, force, now));
    WholeChange(Bal(p.table, a, Purchased),
                PrincipalFalling(p.plans, n, a, who, force, now) + RewardFalling(p.plans, n, a, who, force, now));
  }

  lemma {:induction false} WholeChange(x: real, k: int)
    requires OnGrid(x)
    ensures OnGrid(x + k as real)
  {
    RoundWhole(k);
    GridSum(x, k as real);
  }

  /** Every reward claimed by a payment pass is whole, so the ledger stays on the grid. */
  lemma {:induction false} ClaimRewardsLedger(s: State, rewards: seq<int>)
    requires Solvent(s.fault)
    ensures var q := ClaimRewards(s, rewards);
      && Solvent(q.fault)
      && (OnGridLedger(s.fault) ==> OnGridLedger(q.fault))
  {
    if |rewards| > 0 {
      var earlier := ClaimRewards(s, rewards[..|rewards| - 1]);
      var reward := rewards[|rewards| - 1];
      ClaimRewardsLedger(s, rewards[..|rewards| - 1]);
      RewardKeepsSolvent(earlier.fault, reward as real);
      RoundWhole(reward);
      if reward > 0 && OnGridLedger(s.fault) { RewardLeavesDistance(earlier.fault, reward as real); }
    }
  }

  // ---- exits

  lemma {:induction false} ForfeitKeeps(s: State, i: nat, a: Account)
    requires LockInv(s.balances, s.plans)
    ensures var q := ForfeitPlan(s, i).0;
      && LockInv(q.balances, q.plans)
      && (forall p :: p != ContributionLocked ==> Bal(q.balances, a, p) == Bal(s.balances, a, p))
      && Bal(q.balances, a, ContributionLocked) == Bal(s.balances, a, ContributionLocked)
           - (if i < |s.plans| then LockedShare(s.plans[i], a) else 0) as real
      && q.tasks == s.tasks
      && (i < |s.plans| && s.plans[i].status == Active ==>
            ForfeitPlan(s, i).1 == Exited((UnpaidPrincipal(s.plans[i]) + UnpaidReward(s.plans[i])) as real))
  {
    if i < |s.plans| && s.plans[i].status == Active {
      LockedCovers(s.balances, s.plans, i);
      var row := s.plans[i];
      assert row in s.plans;
      var q := ForfeitPlan(s, i).0;
      LawfulUpdate(s.plans, i, q.plans[i]);
      LockedMoves(s.balances, s.plans, q.balances, i, q.plans[i]);
    }
  }

  /** From t to u: principal left the account's locked pool and nothing else changed. */
  ghost predicate LosesLocked(t: Table, u: Table, a: Account, principal: int) {
    && (forall p :: p != ContributionLocked ==> Bal(u, a, p) == Bal(t, a, p))
    && Bal(u, a, ContributionLocked) == Bal(t, a, ContributionLocked) - principal as real
  }

  /** The failure of a key as it meets one row. */
  lemma {:induction false} ForfeitBoundKeeps(s: State, i: nat, key: KeyId, a: Account, q: State)
    requires LockInv(s.balances, s.plans) && i < |s.plans|
    requires q == if s.plans[i].status == Active && s.plans[i].key == Some(key) then ForfeitPlan(s, i).0 else s
    ensures LockInv(q.balances, q.plans) && q.tasks == s.tasks
    ensures LosesLocked(s.balances, q.balances, a,
                        if s.plans[i].key == Some(key) then LockedShare(s.plans[i], a) else 0)
  {
    ForfeitKeeps(s, i, a);
  }

  /** The rows before come first. */
  lemma {:induction false} ForfeitKeyNext(s: State, key: KeyId, m: nat, n: nat, e: State, q: State)
    requires m < n == m + 1 <= |s.plans| && e == ForfeitKey(s, key, m) && q == ForfeitKey(s, key, n)
    ensures |e.plans| == |s.plans| && e.plans[m] == s.plans[m]
    ensures q == if s.plans[m].status == Active && s.plans[m].key == Some(key) then ForfeitPlan(e, m).0 else e
  {
  }

  lemma {:induction false} ForfeitKeyInv(s: State, key: KeyId, n: nat, q: State)
    requires n <= |s.plans| && LockInv(s.balances, s.plans) && q == ForfeitKey(s, key, n)
    ensures LockInv(q.balances, q.plans)
    decreases n
  {
    if n > 0 {
      var m := n - 1;
      var e := ForfeitKey(s, key, m);
      ForfeitKeyInv(s, key, m, e);
      ForfeitKeyNext(s, key, m, n, e, q);
      ForfeitBoundKeeps(e, m, key, "", q);
    }
  }

  lemma {:induction false} AtRiskNext(plans: seq<Installment>, m: nat, n: nat, a: Account, key: KeyId)
    requires m < n == m + 1 <= |plans|
    ensures PrincipalAtRisk(plans, n, a, key)
            == PrincipalAtRisk(plans, m, a, key) + if plans[m].key == Some(key) then LockedShare(plans[m], a) else 0
  {
  }

  /** A key failure takes from each account the unpaid principal of its active plans bound to the key. */
  lemma {:induction false} ForfeitKeyKeeps(s: State, key: KeyId, n: nat, a: Account, q: State)
    requires n <= |s.plans| && LockInv(s.balances, s.plans) && q == ForfeitKey(s, key, n)
    ensures LosesLocked(s.balances, q.balances, a, PrincipalAtRisk(s.plans, n, a, key)) && q.tasks == s.tasks
    decreases n
  {
    if n > 0 {
      var m := n - 1;
      var e := ForfeitKey(s, key, m);
      ForfeitKeyKeeps(s, key, m, a, e);
      ForfeitKeyInv(s, key, m, e);
      AtRiskNext(s.plans, m, n, a, key);
      ForfeitKeyNext(s, key, m, n, e, q);
      ForfeitBoundKeeps(e, m, key, a, q);
    }
  }

  ghost predicate SameSpendable(t: Table, u: Table) {
    forall a, p :: p == MonthlyGrant || p == Purchased ==> Bal(u, a, p) == Bal(t, a, p)
  }

  /** An early unlock takes the unpaid principal and gives it back less the penalty. */
  lemma {:induction false} UnlockTableKeeps(t: Table, plans: seq<Installment>, i: nat)
    requires LockInv(t, plans) && i < |plans| && plans[i].status == Active
    ensures CanDebit(t, plans[i].account, ContributionLocked, UnpaidPrincipal(plans[i]) as real)
    ensures var row := plans[i];
      var u := UnlockTable(t, row);
      && NonNegative(u) && t.Keys <= u.Keys
      && (forall a :: Bal(t, a, ContributionLocked) - Bal(u, a, ContributionLocked) == LockedShare(row, a) as real)
      && (forall a :: Contributed(t, a) - Contributed(u, a) == (if a == row.account then Penalty(row) else 0) as real)
      && SameSpendable(t, u)
  {
    LockedCovers(t, plans, i);
    assert plans[i] in plans;
    EarlyUnlockSplits(plans[i]);
  }

  lemma {:induction false} EarlyUnlockKeeps(s: State, b: Account, i: nat, a: Account)
    requires LockInv(s.balances, s.plans)
    ensures var (q, out) := EarlyUnlock(s, b, i);
      && LockInv(q.balances, q.plans)
      && out != LockShort
      && q.tasks == s.tasks
      && Bal(q.balances, a, MonthlyGrant) == Bal(s.balances, a, MonthlyGrant)
      && Bal(q.balances, a, Purchased) == Bal(s.balances, a, Purchased)
      && Contributed(q.balances, a) == Contributed(s.balances, a) + ContributionFlow(s, EarlyUnlockOp(b, i), a)
  {
    if i < |s.plans| && s.plans[i].account == b && s.plans[i].status == Active {
      var row := s.plans[i];
      assert row in s.plans;
      UnlockTableKeeps(s.balances, s.plans, i);
      LawfulUpdate(s.plans, i, UnlockRow(row));
      LockedMoves(s.balances, s.plans, UnlockTable(s.balances, row), i, UnlockRow(row));
    }
  }

  /** A lock moves credit from the unlocked pool to the locked one. */
  lemma {:induction false} LockMoves(t: Table, b: Account, amount: real, a: Account)
    requires CanDebit(t, b, ContributionUnlocked, amount)
    ensures var u := LockTable(t, b, amount);
      && Bal(u, a, ContributionLocked) == Bal(t, a, ContributionLocked) + (if a == b then amount else 0.0)
      && Spendable(u, a) == Spendable(t, a)
      && Contributed(u, a) == Contributed(t, a)
  {
  }

  lemma {:induction false} LockTableKeeps(t: Table, plans: seq<Installment>, row: Installment, u: Table)
    requires LockInv(t, plans) && Lawful(row) && OnGrid(row.total) && row.paid == 0 && row.status == Active
    requires row.total > 0.0 && CanDebit(t, row.account, ContributionUnlocked, row.total)
    requires u == LockTable(t, row.account, row.total)
    ensures LockInv(u, plans + [row])
  {
    NothingPaidYet(row);
    forall c ensures Bal(u, c, ContributionLocked) == LockedDue(plans + [row], c) as real {
      LockedDueAppend(plans, row, c);
      LockMoves(t, row.account, row.total, c);
    }
  }

  lemma {:induction false} LockKeeps(s: State, b: Account, amount: real, days: int, threshold: real,
                                     key: Option<KeyId>, now: int, a: Account)
    requires LockInv(s.balances, s.plans) && OnGrid(amount)
    ensures var q := LockContribution(s, b, amount, days, threshold, key, now).0;
      && LockInv(q.balances, q.plans)
      && q.tasks == s.tasks
      && Spendable(q.balances, a) == Spendable(s.balances, a)
      && Contributed(q.balances, a) == Contributed(s.balances, a)
  {
    var (q, out) := LockContribution(s, b, amount, days, threshold, key, now);
    if out.LockedAs? {
      LockTableKeeps(s.balances, s.plans, NewPlan(b, amount, days, key, now), q.balances);
      LockMoves(s.balances, b, amount, a);
    }
  }

  lemma {:induction false} NothingPaidYet(row: Installment)
    requires Lawful(row) && OnGrid(row.total) && row.paid == 0
    ensures UnpaidPrincipal(row) as real == row.total
  {
    UnpaidIsRest(row);
  }

  // ---- one step

  ghost predicate Whole(t: Table) {
    forall a :: SpendableOnGrid(t, a)
  }

  predicate TasksWhole(tasks: seq<Task>) {
    forall t <- tasks :: OnGrid(t.reserved)
  }

  predicate LedgerInv(ledger: seq<Entry>) {
    Solvent(ledger) && OnGridLedger(ledger)
  }

  ghost predicate Inv(s: State) {
    LockInv(s.balances, s.plans) && Whole(s.balances) && TasksWhole(s.tasks) && LedgerInv(s.fault)
  }

  /**
    Amounts entering from outside are whole, the locked pool is credited by
    locking only, and a task is settled once.
   */
  predicate Admissible(s: State, op: Op) {
    match op
    case CreditOp(_, p, x) => p != ContributionLocked && OnGrid(x)
    case ReserveOp(_, _, estimate) => estimate >= 0.0 && OnGrid(estimate)
    case FinalizeOp(id, actual) =>
      var i := FindTask(s.tasks, id);
      OnGrid(actual) && (i < |s.tasks| ==> s.tasks[i].settled.None?)
    case LockOp(_, amount, _, _, _, _) => OnGrid(amount)
    case FaultCreditOp(amount) => OnGrid(amount)
    case FaultDebitOp(amount) => OnGrid(amount)
    case _ => true
  }

  lemma {:induction false} SpendKeeps(t: Table, plans: seq<Installment>, a: Account, x: real)
    requires LockInv(t, plans) && Spend(t, a, x).Spent?
    ensures LockInv(Spend(t, a, x).table, plans)
  {
    SpendTakesExactly(t, a, x);
  }

  lemma {:induction false} CreditKeeps(t: Table, plans: seq<Installment>, a: Account, p: Pool, x: real)
    requires LockInv(t, plans) && p != ContributionLocked && x >= 0.0
    ensures LockInv(Credit(t, a, p, x), plans)
  {
  }

  lemma {:induction false} SpendFlow(s: State, b: Account, x: real, a: Account)
    requires NonNegative(s.balances)
    ensures var q := SpendFromPools(s, b, x);
      && Committed(q, a) == Committed(s, a) + SpendableFlow(s, SpendOp(b, x), a)
      && Contributed(q.balances, a) == Contributed(s.balances, a)
  {
    if Spend(s.balances, b, x).Spent? { SpendTakesExactly(s.balances, b, x); }
  }

  lemma {:induction false} SpendStaysWhole(t: Table, b: Account, x: real)
    requires NonNegative(t) && Whole(t) && Spend(t, b, x).Spent?
    ensures Whole(Spend(t, b, x).table)
  {
    forall a ensures SpendableOnGrid(Spend(t, b, x).table, a) {
      assert SpendableOnGrid(t, a);
      SpendKeepsGrid(t, b, x, a, MonthlyGrant);
      SpendKeepsGrid(t, b, x, a, Purchased);
    }
  }

  lemma {:induction false} CreditStaysWhole(t: Table, b: Account, p: Pool, x: real)
    requires Whole(t) && OnGrid(x)
    ensures Whole(Credit(t, b, p, x))
  {
    forall a ensures SpendableOnGrid(Credit(t, b, p, x), a) {
      assert SpendableOnGrid(t, a);
      if a == b && p in SPEND_ORDER { GridSum(Bal(t, a, p), x); }
    }
  }

  /** Nothing spendable changed, so what was whole still is. */
  lemma {:induction false} UntouchedStaysWhole(t: Table, u: Table)
    requires Whole(t)
    requires SameSpendable(t, u)
    ensures Whole(u)
  {
    forall a ensures SpendableOnGrid(u, a) { assert SpendableOnGrid(t, a); }
  }

  lemma {:induction false} ReserveStep(s: State, b: Account, id: TaskId, estimate: real)
    requires Inv(s) && Admissible(s, ReserveOp(b, id, estimate))
    ensures Inv(ReserveForTask(s, b, id, estimate).0)
    ensures ReserveForTask(s, b, id, estimate).1 != RecordWithoutDebit
  {
    assert SpendableOnGrid(s.balances, b);
    NeverOrphanedOnGrid(s, b, id, estimate);
    var out := ReserveForTask(s, b, id, estimate).1;
    if out.Held? {
      SpendKeeps(s.balances, s.plans, b, AmountToReserve(s.balances, b, estimate));
      SpendStaysWhole(s.balances, b, AmountToReserve(s.balances, b, estimate));
    }
  }

  lemma {:induction false} FinalizeStep(s: State, id: TaskId, actual: real)
    requires Inv(s) && Admissible(s, FinalizeOp(id, actual))
    ensures Inv(FinalizeTask(s, id, actual).0)
  {
    if FinalizeTask(s, id, actual).1.Settled? {
      var t := s.tasks[FindTask(s.tasks, id)];
      GridSum(t.reserved, actual);
      if actual > t.reserved {
        SpendKeeps(s.balances, s.plans, t.account, actual - t.reserved);
        SpendStaysWhole(s.balances, t.account, actual - t.reserved);
      } else if actual < t.reserved {
        CreditKeeps(s.balances, s.plans, t.account, Purchased, t.reserved - actual);
        CreditStaysWhole(s.balances, t.account, Purchased, t.reserved - actual);
      }
    }
  }

  lemma {:induction false} ReserveFlow(s: State, b: Account, id: TaskId, estimate: real, a: Account)
    requires Inv(s) && Admissible(s, ReserveOp(b, id, estimate))
    ensures Committed(ReserveForTask(s, b, id, estimate).0, a) == Committed(s, a)
    ensures Contributed(ReserveForTask(s, b, id, estimate).0.balances, a) == Contributed(s.balances, a)
  {
    ReserveStep(s, b, id, estimate);
    ReserveConserves(s, b, id, estimate, a);
    SpendFlow(s, b, AmountToReserve(s.balances, b, estimate), a);
  }

  lemma {:induction false} FinalizeFlow(s: State, id: TaskId, actual: real, a: Account)
    requires NonNegative(s.balances) && TasksWhole(s.tasks) && Admissible(s, FinalizeOp(id, actual))
    ensures Committed(FinalizeTask(s, id, actual).0, a) == Committed(s, a)
    ensures Contributed(FinalizeTask(s, id, actual).0.balances, a) == Contributed(s.balances, a)
  {
    if FinalizeTask(s, id, actual).1.Settled? {
      var t := s.tasks[FindTask(s.tasks, id)];
      GridSum(actual, t.reserved);
      SettleDriftIs(s, id, actual, a);
      FinalizeLeavesContributed(s, id, actual, a);
    }
  }

  lemma {:induction false} FinalizeLeavesContributed(s: State, id: TaskId, actual: real, a: Account)
    requires NonNegative(s.balances)
    ensures Contributed(FinalizeTask(s, id, actual).0.balances, a) == Contributed(s.balances, a)
  {
    if FinalizeTask(s, id, actual).1.Settled? {
      var t := s.tasks[FindTask(s.tasks, id)];
      if actual > t.reserved { SpendTakesExactly(s.balances, t.account, actual - t.reserved); }
    }
  }

  lemma {:induction false} ProcessStep(s: State, who: Option<Account>, force: bool, now: int)
    requires Inv(s)
    ensures Inv(ProcessInstallments(s, who, force, now))
  {
    var start := Payments(s.balances, s.plans, []);
    var done := PayRows(start, |s.plans|, who, force, now);
    PayRowsKeep(start, |s.plans|, who, force, now, done);
    ClaimRewardsLedger(s.(balances := done.table, plans := done.plans), done.rewards);
    forall a ensures SpendableOnGrid(done.table, a) {
      assert SpendableOnGrid(s.balances, a);
      PassStaysWhole(start, |s.plans|, who, force, now, a);
    }
  }

  lemma {:induction false} ForfeitIsWhole(t: Table, row: Installment)
    ensures OnGrid(ForfeitTotal(t, row))
  {
    RoundWhole(UnpaidPrincipal(row) + UnpaidReward(row));
    RoundWhole(Round(ForfeitedPrincipal(t, row) + UnpaidReward(row) as real));
  }

  lemma {:induction false} ForfeitKeyLedger(s: State, key: KeyId, n: nat, q: State)
    requires n <= |s.plans| && OnGridLedger(s.fault) && q == ForfeitKey(s, key, n)
    ensures OnGridLedger(q.fault)
    decreases n
  {
    if n > 0 {
      var m := n - 1;
      var e := ForfeitKey(s, key, m);
      ForfeitKeyNext(s, key, m, n, e, q);
      ForfeitKeyLedger(s, key, m, e);
      ForfeitIsWhole(e.balances, s.plans[m]);
      CreditKeepsGrid(e.fault, ForfeitTotal(e.balances, s.plans[m]));
    }
  }

  lemma {:induction false} KeyFailureStep(s: State, key: KeyId, q: State)
    requires Inv(s) && q == ForfeitKey(s, key, |s.plans|)
    ensures Inv(q)
  {
    var n := |s.plans|;
    ForfeitKeySolvent(s, key, n, q);
    ForfeitKeyLedger(s, key, n, q);
    ForfeitKeyInv(s, key, n, q);
    ForfeitKeyKeeps(s, key, n, "", q);
    forall a
      ensures Bal(q.balances, a, MonthlyGrant) == Bal(s.balances, a, MonthlyGrant)
      ensures Bal(q.balances, a, Purchased) == Bal(s.balances, a, Purchased)
    {
      ForfeitKeyKeeps(s, key, n, a, q);
    }
    UntouchedStaysWhole(s.balances, q.balances);
  }

  lemma {:induction false} SpendStep(s: State, b: Account, x: real)
    requires Inv(s)
    ensures Inv(SpendFromPools(s, b, x))
  {
    if Spend(s.balances, b, x).Spent? {
      SpendKeeps(s.balances, s.plans, b, x);
      SpendStaysWhole(s.balances, b, x);
    }
  }

  lemma {:induction false} LockLeavesSpendable(s: State, b: Account, amount: real, days: int, threshold: real,
                                               key: Option<KeyId>, now: int)
    ensures SameSpendable(s.balances, LockContribution(s, b, amount, days, threshold, key, now).0.balances)
  {
  }

  lemma {:induction false} LockLeavesRest(s: State, b: Account, amount: real, days: int, threshold: real,
                                          key: Option<KeyId>, now: int)
    ensures var q := LockContribution(s, b, amount, days, threshold, key, now).0;
      q.tasks == s.tasks && q.fault == s.fault
  {
  }

  lemma {:induction false} LockStep(s: State, b: Account, amount: real, days: int, threshold: real,
                                    key: Option<KeyId>, now: int)
    requires Inv(s) && OnGrid(amount)
    ensures Inv(LockContribution(s, b, amount, days, threshold, key, now).0)
  {
    var q := LockContribution(s, b, amount, days, threshold, key, now).0;
    assert Whole(q.balances) by {
      LockLeavesSpendable(s, b, amount, days, threshold, key, now);
      UntouchedStaysWhole(s.balances, q.balances);
    }
    LockLeavesRest(s, b, amount, days, threshold, key, now);
    LockKeeps(s, b, amount, days, threshold, key, now, b);
  }

  lemma {:induction false} UnlockLedger(ledger: seq<Entry>, row: Installment)
    requires LedgerInv(ledger)
    ensures LedgerInv(CreditEntry(ledger, UnlockForfeit(row) as real))
  {
    RoundWhole(UnlockForfeit(row));
    CreditKeepsSolvent(ledger, UnlockForfeit(row) as real);
    CreditKeepsGrid(ledger, UnlockForfeit(row) as real);
  }

  lemma {:induction false} EarlyUnlockStep(s: State, b: Account, i: nat)
    requires Inv(s)
    ensures Inv(EarlyUnlock(s, b, i).0)
  {
    var q := EarlyUnlock(s, b, i).0;
    EarlyUnlockKeeps(s, b, i, b);
    forall a
      ensures Bal(q.balances, a, MonthlyGrant) == Bal(s.balances, a, MonthlyGrant)
      ensures Bal(q.balances, a, Purchased) == Bal(s.balances, a, Purchased)
    {
      EarlyUnlockKeeps(s, b, i, a);
    }
    UntouchedStaysWhole(s.balances, q.balances);
    if i < |s.plans| { UnlockLedger(s.fault, s.plans[i]); }
  }

  lemma {:induction false} CreditStep(s: State, b: Account, p: Pool, x: real)
    requires Inv(s) && Admissible(s, CreditOp(b, p, x))
    ensures Inv(CreditPool(s, b, p, x))
  {
    if x > 0.0 {
      CreditKeeps(s.balances, s.plans, b, p, x);
      CreditStaysWhole(s.balances, b, p, x);
    }
  }

  lemma {:induction false} StepKeeps(s: State, op: Op)
    requires Inv(s) && Admissible(s, op)
    ensures Inv(Step(s, op))
  {
    match op
    case CreditOp(b, p, x) => CreditStep(s, b, p, x);
    case SpendOp(b, x) => SpendStep(s, b, x);
    case ReserveOp(b, id, estimate) => ReserveStep(s, b, id, estimate);
    case FinalizeOp(id, actual) => FinalizeStep(s, id, actual);
    case LockOp(b, amount, days, threshold, key, now) => LockStep(s, b, amount, days, threshold, key, now);
    case ProcessOp(who, force, now) => ProcessStep(s, who, force, now);
    case EarlyUnlockOp(b, i) => EarlyUnlockStep(s, b, i);
    case KeyFailureOp(failed) => KeyFailureStep(s, failed, Step(s, op));
    case FaultCreditOp(amount) =>
      CreditKeepsSolvent(s.fault, amount);
      CreditKeepsGrid(s.fault, amount);
    case FaultDebitOp(amount) =>
      DebitKeepsSolvent(s.fault, amount);
      DebitKeepsGrid(s.fault, amount);
  }

  lemma {:induction false} CreditFlow(s: State, b: Account, p: Pool, x: real, a: Account)
    requires p != ContributionLocked
    ensures var q := CreditPool(s, b, p, x);
      && Committed(q, a) == Committed(s, a) + SpendableFlow(s, CreditOp(b, p, x), a)
      && Contributed(q.balances, a) == Contributed(s.balances, a) + ContributionFlow(s, CreditOp(b, p, x), a)
  {
  }

  lemma {:induction false} ProcessFlow(s: State, who: Option<Account>, force: bool, now: int, a: Account)
    requires LockInv(s.balances, s.plans)
    ensures var q := ProcessInstallments(s, who, force, now);
      && Committed(q, a) == Committed(s, a) + SpendableFlow(s, ProcessOp(who, force, now), a)
      && Contributed(q.balances, a) == Contributed(s.balances, a) + ContributionFlow(s, ProcessOp(who, force, now), a)
  {
    var p := Payments(s.balances, s.plans, []);
    PayRowsFlow(p, |s.plans|, who, force, now, a, PayRows(p, |s.plans|, who, force, now));
  }

  /** Each operation changes an account's two kinds of credit by its flow and nothing else. */
  lemma {:induction false} StepFlows(s: State, op: Op, a: Account)
    requires Inv(s) && Admissible(s, op)
    ensures Committed(Step(s, op), a) == Committed(s, a) + SpendableFlow(s, op, a)
    ensures Contributed(Step(s, op).balances, a) == Contributed(s.balances, a) + ContributionFlow(s, op, a)
  {
    match op
    case CreditOp(b, p, x) => CreditFlow(s, b, p, x, a);
    case SpendOp(b, x) => SpendFlow(s, b, x, a);
    case ReserveOp(b, id, estimate) => ReserveFlow(s, b, id, estimate, a);
    case FinalizeOp(id, actual) => FinalizeFlow(s, id, actual, a);
    case LockOp(b, amount, days, threshold, key, now) => LockKeeps(s, b, amount, days, threshold, key, now, a);
    case ProcessOp(who, force, now) => ProcessFlow(s, who, force, now, a);
    case EarlyUnlockOp(b, i) => EarlyUnlockKeeps(s, b, i, a);
    case KeyFailureOp(failed) => ForfeitKeyKeeps(s, failed, |s.plans|, a, Step(s, op));
    case FaultCreditOp(amount) =>
    case FaultDebitOp(amount) =>
  }

  // ---- whole runs

  predicate AdmissibleRun(s: State, ops: seq<Op>) {
    |ops| == 0 ||
    (AdmissibleRun(s, ops[..|ops| - 1]) && Admissible(Run(s, ops[..|ops| - 1]), ops[|ops| - 1]))
  }

  function SpendableInflow(s: State, ops: seq<Op>, a: Account): real {
    if |ops| == 0 then 0.0
    else SpendableInflow(s, ops[..|ops| - 1], a) + SpendableFlow(Run(s, ops[..|ops| - 1]), ops[|ops| - 1], a)
  }

  function ContributionInflow(s: State, ops: seq<Op>, a: Account): real {
    if |ops| == 0 then 0.0
    else ContributionInflow(s, ops[..|ops| - 1], a) + ContributionFlow(Run(s, ops[..|ops| - 1]), ops[|ops| - 1], a)
  }

  lemma {:induction false} RunKeeps(s: State, ops: seq<Op>)
    requires Inv(s) && AdmissibleRun(s, ops)
    ensures Inv(Run(s, ops))
  {
    if |ops| > 0 {
      var earlier := ops[..|ops| - 1];
      RunKeeps(s, earlier);
      StepKeeps(Run(s, earlier), ops[|ops| - 1]);
    }
  }

  /**
    Over every run, each account's spendable credit, open reservations and settled
    costs add up to what came in; its contribution credit does too.
   */
  lemma {:induction false} RunConserves(s: State, ops: seq<Op>, a: Account)
    requires Inv(s) && AdmissibleRun(s, ops)
    ensures Committed(Run(s, ops), a) == Committed(s, a) + SpendableInflow(s, ops, a)
    ensures Contributed(Run(s, ops).balances, a) == Contributed(s.balances, a) + ContributionInflow(s, ops, a)
  {
    if |ops| > 0 {
      var earlier := ops[..|ops| - 1];
      RunConserves(s, earlier, a);
      RunKeeps(s, earlier);
      StepFlows(Run(s, earlier), ops[|ops| - 1], a);
    }
  }

  /** The locked pool of every account is the unpaid principal of its active plans. */
  lemma {:induction false} LockedIsUnpaidPrincipal(s: State, ops: seq<Op>, a: Account)
    requires Inv(s) && AdmissibleRun(s, ops)
    ensures Bal(Run(s, ops).balances, a, ContributionLocked) == LockedDue(Run(s, ops).plans, a) as real
  {
    RunKeeps(s, ops);
  }

  /** No payment, forfeiture or early unlock ever finds the locked pool short. */
  lemma {:induction false} LockedNeverShort(s: State, ops: seq<Op>, i: nat)
    requires Inv(s) && AdmissibleRun(s, ops)
    requires i < |Run(s, ops).plans| && Run(s, ops).plans[i].status == Active
    ensures var t := Run(s, ops).balances;
      var row := Run(s, ops).plans[i];
      && CanDebit(t, row.account, ContributionLocked, NextPrincipal(row) as real)
      && CanDebit(t, row.account, ContributionLocked, UnpaidPrincipal(row) as real)
      && ForfeitTotal(t, row) == (UnpaidPrincipal(row) + UnpaidReward(row)) as real
  {
    RunKeeps(s, ops);
    LockedCovers(Run(s, ops).balances, Run(s, ops).plans, i);
  }

  /** A due plan is paid by the pass that finds it due, for every pass after every run. */
  lemma {:induction false} DuePlansArePaid(s: State, ops: seq<Op>, who: Option<Account>, force: bool, now: int, i: nat)
    requires Inv(s) && AdmissibleRun(s, ops) && i < |Run(s, ops).plans|
    ensures ProcessInstallments(Run(s, ops), who, force, now).plans[i]
            == AfterPass(Run(s, ops).plans[i], who, force, now)
  {
    var q := Run(s, ops);
    RunKeeps(s, ops);
    var start := Payments(q.balances, q.plans, []);
    PayRowsPayAll(start, |q.plans|, who, force, now, i, PayRows(start, |q.plans|, who, force, now));
  }

  /** The empty store satisfies the invariant. */
  lemma {:induction false} EmptyStore(settings: Settings)
    ensures Inv(State(map[], [], [], settings, []))
  {
    RoundWhole(0);
  }

  // ---- the fault pool over every run, whatever the amounts

  lemma {:induction false} ForfeitPlanSolvent(s: State, i: nat)
    requires Solvent(s.fault)
    ensures Solvent(ForfeitPlan(s, i).0.fault)
  {
    if ForfeitPlan(s, i).1.Exited? { CreditKeepsSolvent(s.fault, ForfeitPlan(s, i).1.forfeit); }
  }

  lemma {:induction false} ForfeitKeySolvent(s: State, key: KeyId, n: nat, q: State)
    requires n <= |s.plans| && Solvent(s.fault) && q == ForfeitKey(s, key, n)
    ensures Solvent(q.fault)
    decreases n
  {
    if n > 0 {
      var m := n - 1;
      var e := ForfeitKey(s, key, m);
      ForfeitKeyNext(s, key, m, n, e, q);
      ForfeitKeySolvent(s, key, m, e);
      ForfeitPlanSolvent(e, m);
    }
  }

  lemma {:induction false} StepSolvent(s: State, op: Op)
    requires Solvent(s.fault)
    ensures Solvent(Step(s, op).fault)
  {
    match op
    case ProcessOp(who, force, now) =>
      var done := PayRows(Payments(s.balances, s.plans, []), |s.plans|, who, force, now);
      ClaimRewardsLedger(s.(balances := done.table, plans := done.plans), done.rewards);
    case EarlyUnlockOp(b, i) =>
      var (_, out) := EarlyUnlock(s, b, i);
      if out.Exited? { CreditKeepsSolvent(s.fault, out.forfeit); }
    case KeyFailureOp(failed) => ForfeitKeySolvent(s, failed, |s.plans|, Step(s, op));
    case FaultCreditOp(amount) => CreditKeepsSolvent(s.fault, amount);
    case FaultDebitOp(amount) => DebitKeepsSolvent(s.fault, amount);
    case _ =>
  }

  /** With no assumption on amounts, the fault pool never reports a negative balance. */
  lemma {:induction false} FaultPoolStaysSolvent(s: State, ops: seq<Op>)
    requires Solvent(s.fault)
    ensures Solvent(Run(s, ops).fault) && Balance(Run(s, ops).fault) >= 0
  {
    if |ops| > 0 {
      FaultPoolStaysSolvent(s, ops[..|ops| - 1]);
      StepSolvent(Run(s, ops[..|ops| - 1]), ops[|ops| - 1]);
    }
    SolventBalance(Run(s, ops).fault);
  }

  lemma {:induction false} StepTightens(s: State, op: Op, q: State)
    requires s.settings.takeRate <= TAKE_CAP && q == Step(s, op)
    ensures Tighter(s.settings, q.settings)
  {
    if op.ProcessOp? {
      var done := PayRows(Payments(s.balances, s.plans, []), |s.plans|, op.who, op.force, op.now);
      ClaimsTighten(s.(balances := done.table, plans := done.plans), done.rewards);
    } else if op.KeyFailureOp? {
      ForfeitKeySettings(s, op.failed, |s.plans|, q);
    }
  }

  /** Fault-pool handling only ever pauses the public pool, and only ever raises the take, to a cap. */
  lemma {:induction false} SettingsOnlyTighten(s: State, ops: seq<Op>)
    requires s.settings.takeRate <= TAKE_CAP
    ensures Tighter(s.settings, Run(s, ops).settings)
  {
    if |ops| > 0 {
      var earlier := Run(s, ops[..|ops| - 1]);
      SettingsOnlyTighten(s, ops[..|ops| - 1]);
      StepTightens(earlier, ops[|ops| - 1], Run(s, ops));
    }
  }

  /** From c to d: a pause stays, the take does not fall and stays within the cap, the threshold is the same. */
  predicate Tighter(c: Settings, d: Settings) {
    (c.publicPoolPaused ==> d.publicPoolPaused) && c.takeRate <= d.takeRate <= TAKE_CAP && d.threshold == c.threshold
  }

  lemma {:induction false} RewardTightens(ledger: seq<Entry>, reward: real, c: Settings)
    requires c.takeRate <= TAKE_CAP
    ensures Tighter(c, RewardSettings(ledger, reward, c))
  {
  }

  lemma {:induction false} ClaimsTighten(s: State, rewards: seq<int>)
    requires s.settings.takeRate <= TAKE_CAP
    ensures Tighter(s.settings, ClaimRewards(s, rewards).settings)
  {
    if |rewards| > 0 {
      var earlier := ClaimRewards(s, rewards[..|rewards| - 1]);
      ClaimsTighten(s, rewards[..|rewards| - 1]);
      RewardTightens(earlier.fault, rewards[|rewards| - 1] as real, earlier.settings);
    }
  }

  lemma {:induction false} ForfeitKeySettings(s: State, key: KeyId, n: nat, q: State)
    requires n <= |s.plans| && q == ForfeitKey(s, key, n)
    ensures q.settings == s.settings
    decreases n
  {
    if n > 0 {
      var m := n - 1;
      var e := ForfeitKey(s, key, m);
      ForfeitKeyNext(s, key, m, n, e, q);
      ForfeitKeySettings(s, key, m, e);
    }
  }
}
