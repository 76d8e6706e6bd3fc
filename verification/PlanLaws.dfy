/**
  Where a lock-up's money goes: the life of each plan over every run, and what
  every operation does to the fault pool.
 */
module PlanLaws {
  import opened Collections
  import opened Money
  import opened Balances
  import opened LockPlans
  import opened FaultLedger
  import opened Store
  import opened StoreLaws

  // ---- the life of a plan

  /** A plan's row says how it ended and what was forfeited then. */
  predicate Accounted(row: Installment) {
    match row.status
    case Active => row.nextDue.Some? && row.forfeited == 0.0
    case Completed => row.nextDue == None && row.forfeited == 0.0
    case ForfeitedKeyFailure =>
      row.nextDue == None && row.paid < PERIODS && row.forfeited == (UnpaidPrincipal(row) + UnpaidReward(row)) as real
    case EarlyUnlocked =>
      row.nextDue == None && row.paid < PERIODS && row.forfeited == (UnpaidReward(row) + Penalty(row)) as real
  }

  predicate AllAccounted(plans: seq<Installment>) {
    forall row <- plans :: Accounted(row)
  }

  /** From row to next: the terms never change, an ended plan stays as it is, payments come one at a time. */
  predicate Advances(row: Installment, next: Installment) {
    && next.(paid := row.paid, status := row.status, nextDue := row.nextDue, forfeited := row.forfeited) == row
    && (row.status != Active ==> next == row)
    && row.paid <= next.paid <= row.paid + 1
    && (next.paid == row.paid + 1 <==> next.paid > row.paid)
    && (next.paid > row.paid ==> next.status == if next.paid == PERIODS then Completed else Active)
  }

  /** The row after a key failure, when the locked pool is not short. */
  function AfterFailure(row: Installment, key: KeyId): Installment {
    if row.status == Active && row.key == Some(key) then
      row.(status := ForfeitedKeyFailure, forfeited := (UnpaidPrincipal(row) + UnpaidReward(row)) as real,
          nextDue := None)
    else row
  }

  /** Ending a plan is refused, and changes nothing, exactly when it is not there, not the account's, or not active. */
  lemma {:induction false} NotActiveIff(s: State, a: Account, i: nat)
    ensures ForfeitPlan(s, i).1 == NotActive <==> i >= |s.plans| || s.plans[i].status != Active
    ensures ForfeitPlan(s, i).1 == NotActive ==> ForfeitPlan(s, i).0 == s
    ensures ForfeitPlan(s, i).1 != LockShort
    ensures EarlyUnlock(s, a, i).1 == NotActive
            <==> i >= |s.plans| || s.plans[i].account != a || s.plans[i].status != Active
    ensures !EarlyUnlock(s, a, i).1.Exited? ==> EarlyUnlock(s, a, i).0 == s
  {
  }

  /** What a key failure takes from one plan. */
  function Risk(row: Installment, key: KeyId): (r: int)
    ensures r >= 0
  {
    if row.status == Active && row.key == Some(key) then UnpaidPrincipal(row) + UnpaidReward(row) else 0
  }

  lemma {:induction false} ForfeitPlanIs(s: State, i: nat, key: KeyId)
    requires LockInv(s.balances, s.plans) && i < |s.plans| && s.plans[i].status == Active && s.plans[i].key == Some(key)
    ensures var q := ForfeitPlan(s, i).0;
      && q.plans == s.plans[i := AfterFailure(s.plans[i], key)]
      && q.fault == CreditEntry(s.fault, Risk(s.plans[i], key) as real)
  {
    LockedCovers(s.balances, s.plans, i);
  }

  lemma {:induction false} ForfeitOne(s: State, key: KeyId, i: nat, q: State)
    requires LockInv(s.balances, s.plans) && i < |s.plans|
    requires q == if s.plans[i].status == Active && s.plans[i].key == Some(key) then ForfeitPlan(s, i).0 else s
    ensures q.plans == s.plans[i := AfterFailure(s.plans[i], key)]
    ensures q.fault == CreditEntry(s.fault, Risk(s.plans[i], key) as real)
  {
    if s.plans[i].status == Active && s.plans[i].key == Some(key) { ForfeitPlanIs(s, i, key); }
  }

  /** A key failure forfeits every active plan bound to the key, in full, and no other. */
  lemma {:induction false} ForfeitKeyRow(s: State, key: KeyId, n: nat, i: nat, q: State)
    requires LockInv(s.balances, s.plans) && i < n <= |s.plans| && q == ForfeitKey(s, key, n)
    ensures q.plans[i] == AfterFailure(s.plans[i], key)
    decreases n
  {
    var m := n - 1;
    var e := ForfeitKey(s, key, m);
    ForfeitKeyNext(s, key, m, n, e, q);
    ForfeitKeyInv(s, key, m, e);
    ForfeitOne(e, key, m, q);
    if i < m { ForfeitKeyRow(s, key, m, i, e); }
  }

  /** What an operation does to one plan. */
  function PlanAfter(s: State, op: Op, i: nat): Installment
    requires i < |s.plans|
  {
    var row := s.plans[i];
    match op
    case ProcessOp(who, force, now) => AfterPass(row, who, force, now)
    case EarlyUnlockOp(a, plan) => if plan == i && row.account == a && row.status == Active then UnlockRow(row) else row
    case KeyFailureOp(failed) => AfterFailure(row, failed)
    case _ => row
  }

  lemma {:induction false} StepPlan(s: State, op: Op, i: nat)
    requires Inv(s) && i < |s.plans|
    ensures i < |Step(s, op).plans| && Step(s, op).plans[i] == PlanAfter(s, op, i)
  {
    match op
    case ProcessOp(who, force, now) =>
      var p := Payments(s.balances, s.plans, []);
      PayRowsPayAll(p, |s.plans|, who, force, now, i, PayRows(p, |s.plans|, who, force, now));
    case EarlyUnlockOp(a, plan) => EarlyUnlockKeeps(s, a, plan, a);
    case KeyFailureOp(failed) => ForfeitKeyRow(s, failed, |s.plans|, i, Step(s, op));
    case _ =>
  }

  lemma {:induction false} PlanAdvances(s: State, op: Op, i: nat)
    requires Inv(s) && i < |s.plans| && Accounted(s.plans[i])
    ensures Advances(s.plans[i], PlanAfter(s, op, i)) && Accounted(PlanAfter(s, op, i))
  {
    var row := s.plans[i];
    assert row in s.plans && Lawful(row);
    SameUnpaid(row, PlanAfter(s, op, i));
  }

  /** What is unpaid depends on the terms and the payments made only. */
  lemma {:induction false} SameUnpaid(row: Installment, next: Installment)
    ensures next.total == row.total && next.per == row.per && next.paid == row.paid && next.lockDays == row.lockDays ==>
      UnpaidPrincipal(next) == UnpaidPrincipal(row) && UnpaidReward(next) == UnpaidReward(row)
          && Penalty(next) == Penalty(row)
  {
  }

  lemma {:induction false} NewPlansAccounted(s: State, op: Op)
    requires Inv(s)
    ensures forall i :: |s.plans| <= i < |Step(s, op).plans| ==> Accounted(Step(s, op).plans[i])
  {
    match op
    case LockOp(a, amount, days, threshold, key, now) =>
    case ProcessOp(who, force, now) =>
    case _ =>
  }

  lemma {:induction false} StepAccounts(s: State, op: Op)
    requires Inv(s) && AllAccounted(s.plans)
    ensures AllAccounted(Step(s, op).plans) && |s.plans| <= |Step(s, op).plans|
    ensures forall i :: 0 <= i < |s.plans| ==> Advances(s.plans[i], Step(s, op).plans[i])
  {
    forall i | 0 <= i < |s.plans|
      ensures i < |Step(s, op).plans|
      ensures Advances(s.plans[i], Step(s, op).plans[i]) && Accounted(Step(s, op).plans[i])
    {
      StepPlan(s, op, i);
      PlanAdvances(s, op, i);
    }
    NewPlansAccounted(s, op);
    PlansNeverVanish(s, op);
  }

  lemma {:induction false} PlansNeverVanish(s: State, op: Op)
    ensures |s.plans| <= |Step(s, op).plans|
  {
  }

  lemma {:induction false} RunAccounts(s: State, ops: seq<Op>)
    requires Inv(s) && AdmissibleRun(s, ops) && AllAccounted(s.plans)
    ensures AllAccounted(Run(s, ops).plans) && |s.plans| <= |Run(s, ops).plans|
  {
    if |ops| > 0 {
      var earlier := ops[..|ops| - 1];
      RunAccounts(s, earlier);
      RunKeeps(s, earlier);
      StepAccounts(Run(s, earlier), ops[|ops| - 1]);
    }
  }

  /** A plan that has ended is never touched again, and payments already made are kept. */
  lemma {:induction false} EndedPlansStay(s: State, ops: seq<Op>, i: nat)
    requires Inv(s) && AdmissibleRun(s, ops) && AllAccounted(s.plans) && i < |s.plans|
    ensures i < |Run(s, ops).plans| && s.plans[i].paid <= Run(s, ops).plans[i].paid
    ensures s.plans[i].status != Active ==> Run(s, ops).plans[i] == s.plans[i]
  {
    if |ops| > 0 {
      var earlier := ops[..|ops| - 1];
      EndedPlansStay(s, earlier, i);
      RunAccounts(s, earlier);
      RunKeeps(s, earlier);
      StepAccounts(Run(s, earlier), ops[|ops| - 1]);
    }
  }

  /**
    After every run, every unit of a plan's principal is accounted for: paid out,
    still locked, forfeited, or returned less the penalty; and what was booked as
    forfeited is exactly the principal taken and the reward not paid.
   */
  lemma {:induction false} PrincipalIsConserved(s: State, ops: seq<Op>, i: nat)
    requires Inv(s) && AdmissibleRun(s, ops) && AllAccounted(s.plans) && i < |Run(s, ops).plans|
    ensures var row := Run(s, ops).plans[i];
      var paid := PrincipalPaid(row, row.paid);
      match row.status
      case Active => row.total == (paid + UnpaidPrincipal(row)) as real
      case Completed => row.total == paid as real
      case ForfeitedKeyFailure => row.total + UnpaidReward(row) as real == paid as real + row.forfeited
      case EarlyUnlocked =>
        row.total + UnpaidReward(row) as real == (paid + ReturnedPrincipal(row)) as real + row.forfeited
  {
    RunAccounts(s, ops);
    RunKeeps(s, ops);
    var row := Run(s, ops).plans[i];
    assert row in Run(s, ops).plans;
    if row.paid < PERIODS {
      UnpaidIsRest(row);
      EarlyUnlockSplits(row);
    } else {
      PrincipalPaysRounding(row);
    }
  }

  // ---- when plans start, and when they pay

  /** Exactly when a lock goes through; it leaves the threshold unlocked, and the debit is never what refuses it. */
  lemma {:induction false} LockSucceedsIff(s: State, a: Account, amount: real, days: int, threshold: real,
                                           key: Option<KeyId>, now: int)
    requires threshold >= 0.0
    ensures var (q, out) := LockContribution(s, a, amount, days, threshold, key, now);
      var unlocked := Bal(s.balances, a, ContributionUnlocked);
      && (out.LockedAs? <==> IsTerm(days) && amount > 0.0 && amount + threshold <= unlocked)
      && out != CannotLock
      && (out == BadTerm <==> days != 30 && days != 90 && days != 180)
      && (out == BadAmount <==> out != BadTerm && amount <= 0.0)
      && (out == OverLimit <==> out != BadTerm && amount > 0.0 && (amount > unlocked - threshold))
      && (out.LockedAs? ==> Bal(q.balances, a, ContributionUnlocked) >= threshold)
      && (!out.LockedAs? ==> q == s)
  {
  }

  predicate Unforced(ops: seq<Op>) {
    forall op <- ops :: op.ProcessOp? ==> !op.force
  }

  /** What an operation can do to a plan: nothing, a payment in a pass that finds it payable, or an end without one. */
  predicate Moves(row: Installment, next: Installment, op: Op) {
    || next == row
    || (op.ProcessOp? && Payable(row, op.who, op.force, op.now) && next == PaidRow(row, op.now))
    || (row.status == Active && next.status != Active && next.paid == row.paid && next.intervalDays == row.intervalDays)
  }

  lemma {:induction false} PassMoves(p: Payments, n: nat, i: nat, op: Op, q: Payments)
    requires op.ProcessOp? && n <= |p.plans| && i < |p.plans| && q == PayRows(p, n, op.who, op.force, op.now)
    ensures Moves(p.plans[i], q.plans[i], op)
    decreases n
  {
    if n > 0 {
      var m := n - 1;
      var e := PayRows(p, m, op.who, op.force, op.now);
      PassNext(p, m, n, op.who, op.force, op.now, e, q);
      if i < m { PassMoves(p, m, i, op, e); }
    }
  }

  lemma {:induction false} KeyMoves(s: State, op: Op, n: nat, i: nat, q: State)
    requires op.KeyFailureOp? && n <= |s.plans| && i < |s.plans| && q == ForfeitKey(s, op.failed, n)
    ensures Moves(s.plans[i], q.plans[i], op)
    decreases n
  {
    if n > 0 {
      var m := n - 1;
      var e := ForfeitKey(s, op.failed, m);
      ForfeitKeyNext(s, op.failed, m, n, e, q);
      if i < m { KeyMoves(s, op, m, i, e); }
    }
  }

  lemma {:induction false} StepMoves(s: State, op: Op, i: nat)
    requires i < |s.plans|
    ensures i < |Step(s, op).plans| && Moves(s.plans[i], Step(s, op).plans[i], op)
  {
    if op.ProcessOp? {
      var p := Payments(s.balances, s.plans, []);
      PassMoves(p, |s.plans|, i, op, PayRows(p, |s.plans|, op.who, op.force, op.now));
    } else if op.KeyFailureOp? {
      KeyMoves(s, op, |s.plans|, i, Step(s, op));
    }
  }

  /** While a plan is active its due date has moved by a full interval for each payment made in between. */
  predicate Spaced(row: Installment, next: Installment)
    requires row.nextDue.Some?
  {
    && next.intervalDays == row.intervalDays && next.paid >= row.paid
    && (next.status == Active ==>
          next.nextDue.Some?
          && next.nextDue.value >= row.nextDue.value + Times(row.intervalDays * SECONDS_PER_DAY, next.paid - row.paid))
  }

  lemma {:induction false} SpacedMoves(row: Installment, mid: Installment, next: Installment, op: Op)
    requires row.nextDue.Some? && Spaced(row, mid) && Moves(mid, next, op)
    requires op.ProcessOp? ==> !op.force
    ensures Spaced(row, next)
    ensures next.paid > mid.paid ==>
              op.ProcessOp?
              && op.now >= row.nextDue.value + Times(row.intervalDays * SECONDS_PER_DAY, mid.paid - row.paid)
  {
    if next.paid > mid.paid {
      var step := row.intervalDays * SECONDS_PER_DAY;
      assert Times(step, mid.paid + 1 - row.paid) == step + Times(step, mid.paid - row.paid);
    }
  }

  lemma {:induction false} RunSpaced(s: State, ops: seq<Op>, i: nat)
    requires i < |s.plans| && s.plans[i].nextDue.Some? && Unforced(ops)
    ensures i < |Run(s, ops).plans| && Spaced(s.plans[i], Run(s, ops).plans[i])
  {
    if |ops| > 0 {
      var earlier := ops[..|ops| - 1];
      assert ops == earlier + [ops[|ops| - 1]];
      assert ops[|ops| - 1] in ops;
      RunSpaced(s, earlier, i);
      StepMoves(Run(s, earlier), ops[|ops| - 1], i);
      SpacedMoves(s.plans[i], Run(s, earlier).plans[i], Step(Run(s, earlier), ops[|ops| - 1]).plans[i], ops[|ops| - 1]);
    }
  }

  /**
    Over every run without forced passes, whatever the amounts and the clocks: the
    operation that makes a plan's k-th further payment, the completing one included,
    is a pass at least k - 1 intervals after the due date the plan started with.
   */
  lemma {:induction false} PaymentsAreSpaced(s: State, ops: seq<Op>, op: Op, i: nat)
    requires i < |s.plans| && s.plans[i].nextDue.Some? && Unforced(ops + [op])
    ensures i < |Run(s, ops).plans| && i < |Step(Run(s, ops), op).plans|
    ensures var (start, before, after) := (s.plans[i], Run(s, ops).plans[i], Step(Run(s, ops), op).plans[i]);
      after.paid > before.paid ==>
        && start.paid < after.paid == before.paid + 1
        && op.ProcessOp?
        && op.now >= start.nextDue.value + Times(start.intervalDays * SECONDS_PER_DAY, after.paid - start.paid - 1)
  {
    assert op in ops + [op];
    assert Unforced(ops) by {
      forall o <- ops ensures o.ProcessOp? ==> !o.force { assert o in ops + [op]; }
    }
    RunSpaced(s, ops, i);
    StepMoves(Run(s, ops), op, i);
    SpacedMoves(s.plans[i], Run(s, ops).plans[i], Step(Run(s, ops), op).plans[i], op);
  }

  lemma {:induction false} NewPlanIsLast(s: State, lock: Op, q: State)
    requires lock.LockOp? && q == Step(s, lock)
    requires LockContribution(s, lock.a, lock.amount, lock.days, lock.threshold, lock.key, lock.now).1.LockedAs?
    ensures q.plans == s.plans + [NewPlan(lock.a, lock.amount, lock.days, lock.key, lock.now)]
  {
  }

  lemma {:induction false} FromTheStart(begin: int, interval: int, now: int, paid: nat)
    requires paid > 0 && now >= begin + interval + Times(interval, paid - 1)
    ensures now >= begin + Times(interval, paid)
  {
  }

  /** The k-th payment of a new lock comes at least k intervals after it was locked. */
  lemma {:induction false} PaymentsAfterLock(s: State, lock: Op, ops: seq<Op>, op: Op)
    requires lock.LockOp? && Unforced(ops + [op])
    requires LockContribution(s, lock.a, lock.amount, lock.days, lock.threshold, lock.key, lock.now).1.LockedAs?
    ensures var (q, i) := (Run(Step(s, lock), ops), |s.plans|);
      && i < |q.plans| && i < |Step(q, op).plans|
      && (Step(q, op).plans[i].paid > q.plans[i].paid ==>
            op.ProcessOp?
            && op.now >= lock.now + Times(IntervalDays(lock.days) * SECONDS_PER_DAY, Step(q, op).plans[i].paid))
  {
    NewPlanIsLast(s, lock, Step(s, lock));
    SpacedFrom(Step(s, lock), ops, op, |s.plans|, NewPlan(lock.a, lock.amount, lock.days, lock.key, lock.now),
               lock.now);
  }

  /** Payments counted from one interval before the first due date. */
  lemma {:induction false} SpacedFrom(s: State, ops: seq<Op>, op: Op, i: nat, row: Installment, begin: int)
    requires Unforced(ops + [op]) && i < |s.plans| && s.plans[i] == row && row.paid == 0
    requires row.nextDue == Some(begin + row.intervalDays * SECONDS_PER_DAY)
    ensures i < |Run(s, ops).plans| && i < |Step(Run(s, ops), op).plans|
    ensures var (before, after) := (Run(s, ops).plans[i], Step(Run(s, ops), op).plans[i]);
      after.paid > before.paid ==>
        op.ProcessOp? && op.now >= begin + Times(row.intervalDays * SECONDS_PER_DAY, after.paid)
  {
    PaymentsAreSpaced(s, ops, op, i);
    var (before, after) := (Run(s, ops).plans[i], Step(Run(s, ops), op).plans[i]);
    if after.paid > before.paid {
      FromTheStart(begin, row.intervalDays * SECONDS_PER_DAY, op.now, after.paid);
    }
  }

  // ---- the fault pool

  /** Unpaid principal and reward of the active plans bound to a key, among the first n. */
  function ForfeitsAtRisk(plans: seq<Installment>, n: nat, key: KeyId): int
    requires n <= |plans|
  {
    if n == 0 then 0
    else ForfeitsAtRisk(plans, n - 1, key) + Risk(plans[n - 1], key)
  }

  /** The rewards falling due in a pass over the first n plans, in order. */
  function DueRewards(plans: seq<Installment>, n: nat, who: Option<Account>, force: bool, now: int): seq<int>
    requires n <= |plans|
  {
    if n == 0 then []
    else DueRewards(plans, n - 1, who, force, now)
         + if Payable(plans[n - 1], who, force, now) then [NextReward(plans[n - 1])] else []
  }

  /** A balance after rewards: each one leaves its distance from the balance it finds. */
  function AfterRewards(balance: int, rewards: seq<int>): int {
    if |rewards| == 0 then balance
    else
      var found := AfterRewards(balance, rewards[..|rewards| - 1]);
      var reward := rewards[|rewards| - 1];
      if reward <= 0 then found else if reward <= found then found - reward else reward - found
  }

  lemma {:induction false} ClaimsReport(s: State, rewards: seq<int>)
    requires LedgerInv(s.fault)
    ensures LedgerInv(ClaimRewards(s, rewards).fault)
    ensures Balance(ClaimRewards(s, rewards).fault) == AfterRewards(Balance(s.fault), rewards)
  {
    ClaimRewardsLedger(s, rewards);
    if |rewards| > 0 {
      var earlier := ClaimRewards(s, rewards[..|rewards| - 1]);
      var reward := rewards[|rewards| - 1];
      ClaimsReport(s, rewards[..|rewards| - 1]);
      RoundWhole(reward);
      if reward > 0 { RewardLeavesDistance(earlier.fault, reward as real); }
    }
  }

  /** One row of a pass adds its reward if it is payable. */
  lemma {:induction false} RowReward(p: Payments, i: nat, who: Option<Account>, force: bool, now: int)
    requires i < |p.plans| && LockInv(p.table, p.plans)
    ensures PayRow(p, i, who, force, now).rewards
            == p.rewards + if Payable(p.plans[i], who, force, now) then [NextReward(p.plans[i])] else []
  {
    if Payable(p.plans[i], who, force, now) { LockedCovers(p.table, p.plans, i); }
  }

  lemma {:induction false} DueNext(plans: seq<Installment>, m: nat, n: nat, who: Option<Account>, force: bool,
                                   now: int)
    requires m < n == m + 1 <= |plans|
    ensures DueRewards(plans, n, who, force, now)
            == DueRewards(plans, m, who, force, now)
             + if Payable(plans[m], who, force, now) then [NextReward(plans[m])] else []
  {
  }

  lemma {:induction false} PassRewards(p: Payments, n: nat, who: Option<Account>, force: bool, now: int, q: Payments)
    requires n <= |p.plans| && LockInv(p.table, p.plans) && p.rewards == [] && q == PayRows(p, n, who, force, now)
    ensures q.rewards == DueRewards(p.plans, n, who, force, now)
    decreases n
  {
    if n > 0 {
      var m := n - 1;
      var e := PayRows(p, m, who, force, now);
      PassNext(p, m, n, who, force, now, e, q);
      PassRewards(p, m, who, force, now, e);
      PayRowsKeep(p, m, who, force, now, e);
      RowReward(e, m, who, force, now);
      DueNext(p.plans, m, n, who, force, now);
    }
  }

  lemma {:induction false} LedgerGains(ledger: seq<Entry>, k: int)
    requires LedgerInv(ledger) && k >= 0
    ensures LedgerInv(CreditEntry(ledger, k as real)) && Balance(CreditEntry(ledger, k as real)) == Balance(ledger) + k
  {
    RoundWhole(k);
    CreditReports(ledger, k as real);
  }

  /** A key failure credits the fault pool with all it takes from the contributors. */
  lemma {:induction false} ForfeitKeyCredits(s: State, key: KeyId, n: nat, q: State)
    requires n <= |s.plans| && LockInv(s.balances, s.plans) && LedgerInv(s.fault)
    requires q == ForfeitKey(s, key, n)
    ensures LedgerInv(q.fault) && Balance(q.fault) == Balance(s.fault) + ForfeitsAtRisk(s.plans, n, key)
    decreases n
  {
    if n > 0 {
      var m := n - 1;
      var e := ForfeitKey(s, key, m);
      ForfeitKeyNext(s, key, m, n, e, q);
      ForfeitKeyCredits(s, key, m, e);
      ForfeitKeyInv(s, key, m, e);
      ForfeitOne(e, key, m, q);
      LedgerGains(e.fault, Risk(s.plans[m], key));
      RiskNext(s.plans, m, n, key);
    }
  }

  lemma {:induction false} RiskNext(plans: seq<Installment>, m: nat, n: nat, key: KeyId)
    requires m < n == m + 1 <= |plans|
    ensures ForfeitsAtRisk(plans, n, key) == ForfeitsAtRisk(plans, m, key) + Risk(plans[m], key)
  {
  }

  /** The fault pool's balance after an operation, in terms of the state before it. */
  function FaultAfter(s: State, op: Op): real {
    var b := Balance(s.fault) as real;
    match op
    case ProcessOp(who, force, now) =>
      AfterRewards(Balance(s.fault), DueRewards(s.plans, |s.plans|, who, force, now)) as real
    case EarlyUnlockOp(a, plan) =>
      if plan < |s.plans| && s.plans[plan].account == a && s.plans[plan].status == Active
      then b + (UnpaidReward(s.plans[plan]) + Penalty(s.plans[plan])) as real else b
    case KeyFailureOp(failed) => b + ForfeitsAtRisk(s.plans, |s.plans|, failed) as real
    case FaultCreditOp(amount) => b + Max(0.0, amount)
    case FaultDebitOp(amount) => b - Max(0.0, Min(amount, b))
    case _ => b
  }

  lemma {:induction false} UnlockGain(row: Installment)
    requires Lawful(row) && OnGrid(row.total) && row.status == Active
    ensures UnlockForfeit(row) >= 0
  {
    EarlyUnlockSplits(row);
  }

  lemma {:induction false} UnlockIs(s: State, a: Account, i: nat)
    requires LockInv(s.balances, s.plans) && i < |s.plans| && s.plans[i].account == a && s.plans[i].status == Active
    ensures EarlyUnlock(s, a, i).0.fault == CreditEntry(s.fault, UnlockForfeit(s.plans[i]) as real)
  {
    LockedCovers(s.balances, s.plans, i);
  }

  lemma {:induction false} UnlockCredits(s: State, a: Account, i: nat)
    requires LockInv(s.balances, s.plans) && LedgerInv(s.fault)
    ensures Balance(EarlyUnlock(s, a, i).0.fault) as real == FaultAfter(s, EarlyUnlockOp(a, i))
  {
    if i < |s.plans| && s.plans[i].account == a && s.plans[i].status == Active {
      assert s.plans[i] in s.plans;
      UnlockGain(s.plans[i]);
      UnlockIs(s, a, i);
      LedgerGains(s.fault, UnlockForfeit(s.plans[i]));
    }
  }

  lemma {:induction false} DirectFlow(s: State, amount: real)
    requires LedgerInv(s.fault) && OnGrid(amount)
    ensures Balance(CreditFaultPool(s, amount).fault) as real == FaultAfter(s, FaultCreditOp(amount))
    ensures Balance(DisburseFromFaultPool(s, amount).fault) as real == FaultAfter(s, FaultDebitOp(amount))
  {
    SolventBalance(s.fault);
    if amount > 0.0 {
      CreditReports(s.fault, amount);
      DebitReports(s.fault, amount);
    }
  }

  /** After every run, every operation changes the fault pool by exactly its stated flow. */
  lemma {:induction false} FaultFlows(s: State, ops: seq<Op>, op: Op)
    requires Inv(s) && AdmissibleRun(s, ops) && Admissible(Run(s, ops), op)
    ensures Balance(Step(Run(s, ops), op).fault) as real == FaultAfter(Run(s, ops), op)
  {
    RunKeeps(s, ops);
    StepFault(Run(s, ops), op);
  }

  lemma {:induction false} ProcessClaims(s: State, who: Option<Account>, force: bool, now: int)
    requires LockInv(s.balances, s.plans) && LedgerInv(s.fault)
    ensures Balance(ProcessInstallments(s, who, force, now).fault)
            == AfterRewards(Balance(s.fault), DueRewards(s.plans, |s.plans|, who, force, now))
  {
    var p := Payments(s.balances, s.plans, []);
    var done := PayRows(p, |s.plans|, who, force, now);
    PassRewards(p, |s.plans|, who, force, now, done);
    ClaimsOf(s, done);
  }

  lemma {:induction false} ClaimsOf(s: State, done: Payments)
    requires LedgerInv(s.fault)
    ensures Balance(ClaimRewards(s.(balances := done.table, plans := done.plans), done.rewards).fault)
            == AfterRewards(Balance(s.fault), done.rewards)
  {
    ClaimsReport(s.(balances := done.table, plans := done.plans), done.rewards);
  }

  lemma {:induction false} StepFault(s: State, op: Op)
    requires Inv(s) && Admissible(s, op)
    ensures Balance(Step(s, op).fault) as real == FaultAfter(s, op)
  {
    match op
    case ProcessOp(who, force, now) => ProcessClaims(s, who, force, now);
    case EarlyUnlockOp(a, i) => UnlockCredits(s, a, i);
    case KeyFailureOp(failed) => ForfeitKeyCredits(s, failed, |s.plans|, Step(s, op));
    case FaultCreditOp(amount) => DirectFlow(s, amount);
    case FaultDebitOp(amount) => DirectFlow(s, amount);
    case _ =>
  }
}
