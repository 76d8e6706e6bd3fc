/**
  The store on arbitrary amounts: what the locked pool holds after every run,
  exactly when a plan finds it short, and how far spendable credit drifts. Nothing
  here asks for amounts on the grid.
 */
module DriftLaws {
  import opened Collections
  import opened Money
  import opened Balances
  import opened LockPlans
  import opened FaultLedger
  import opened Store
  import opened TaskLaws
  import opened StoreLaws

  // ---- what the locked pool holds

  /**
    What a plan keeps in the locked pool: all of its rest while it is active, and
    once it has ended what rounding left behind, which is negative when it rounded up.
   */
  function Kept(row: Installment): real {
    match row.status
    case Active => Rest(row)
    case Completed => row.total - Round(row.total) as real
    case ForfeitedKeyFailure => Rest(row) - UnpaidPrincipal(row) as real
    case EarlyUnlocked => Rest(row) - UnpaidPrincipal(row) as real
  }

  function KeptBy(plans: seq<Installment>, a: Account): real {
    if |plans| == 0 then 0.0
    else KeptBy(plans[..|plans| - 1], a) + if plans[|plans| - 1].account == a then Kept(plans[|plans| - 1]) else 0.0
  }

  /** What the locked pool of an account holds beyond its plans. */
  function Surplus(t: Table, plans: seq<Installment>, a: Account): real {
    Bal(t, a, ContributionLocked) - KeptBy(plans, a)
  }

  lemma {:induction false} KeptAppend(plans: seq<Installment>, row: Installment, a: Account)
    ensures KeptBy(plans + [row], a) == KeptBy(plans, a) + if row.account == a then Kept(row) else 0.0
  {
    assert (plans + [row])[..|plans|] == plans;
  }

  lemma {:induction false} KeptUpdate(plans: seq<Installment>, i: nat, row: Installment, a: Account)
    requires i < |plans| && row.account == plans[i].account
    ensures KeptBy(plans[i := row], a) == KeptBy(plans, a) + if row.account == a
        then Kept(row) - Kept(plans[i]) else 0.0
  {
    var last := |plans| - 1;
    if i < last {
      assert plans[i := row][..last] == plans[..last][i := row];
      KeptUpdate(plans[..last], i, row, a);
    } else {
      assert plans[i := row][..last] == plans[..last];
    }
  }

  // ---- what one payment, forfeiture or unlock does to it

  /** A payment takes from the pool what the plan stops keeping. */
  lemma {:induction false} PaymentKeeps(row: Installment, now: int)
    requires row.status == Active && row.paid < PERIODS
    ensures Kept(PaidRow(row, now)) == Kept(row) - NextPrincipal(row) as real
  {
    assert Times(row.per, row.paid + 1) == row.per + Times(row.per, row.paid);
    if row.paid == PERIODS - 1 {
      LastPrincipal(row);
      SmallTimes(row.per);
    }
  }

  lemma {:induction false} PayRowSurplus(p: Payments, i: nat, who: Option<Account>, force: bool, now: int, a: Account)
    requires i < |p.plans|
    ensures var q := PayRow(p, i, who, force, now);
      Surplus(q.table, q.plans, a) == Surplus(p.table, p.plans, a)
  {
    var row := p.plans[i];
    var due := NextPrincipal(row) as real;
    if Payable(row, who, force, now) && CanDebit(p.table, row.account, ContributionLocked, due) {
      PaymentKeeps(row, now);
      KeptUpdate(p.plans, i, PaidRow(row, now), a);
    }
  }

  lemma {:induction false} PassSurplus(p: Payments, n: nat, who: Option<Account>, force: bool, now: int, a: Account,
                                       q: Payments)
    requires n <= |p.plans| && q == PayRows(p, n, who, force, now)
    ensures Surplus(q.table, q.plans, a) == Surplus(p.table, p.plans, a)
    decreases n
  {
    if n > 0 {
      var m := n - 1;
      var e := PayRows(p, m, who, force, now);
      PassNext(p, m, n, who, force, now, e, q);
      PassSurplus(p, m, who, force, now, a, e);
      PayRowSurplus(e, m, who, force, now, a);
    }
  }

  /** What a key failure fails to take, the pool being short. */
  function Shortfall(t: Table, row: Installment): (r: real)
    ensures r >= 0.0
    ensures r > 0.0 <==> UnpaidPrincipal(row) as real > Max(0.0, Bal(t, row.account, ContributionLocked))
  {
    UnpaidPrincipal(row) as real - ForfeitedPrincipal(t, row)
  }

  lemma {:induction false} ForfeitSurplus(s: State, i: nat, a: Account)
    requires i < |s.plans| && s.plans[i].status == Active
    ensures var q := ForfeitPlan(s, i).0;
      Surplus(q.balances, q.plans, a) == Surplus(s.balances, s.plans, a)
        + if s.plans[i].account == a then Shortfall(s.balances, s.plans[i]) else 0.0
  {
    var row := s.plans[i];
    var next := ForfeitRow(s.balances, row);
    assert Kept(next) == Kept(row) - UnpaidPrincipal(row) as real;
    KeptUpdate(s.plans, i, next, a);
  }

  /** What the failure of a key fails to take from an account's plans among the first n. */
  function KeyShortfall(s: State, key: KeyId, n: nat, a: Account): (r: real)
    requires n <= |s.plans|
    ensures r >= 0.0
  {
    if n == 0 then 0.0
    else
      var row := s.plans[n - 1];
      KeyShortfall(s, key, n - 1, a)
      + if row.status == Active && row.key == Some(key) && row.account == a
        then Shortfall(ForfeitKey(s, key, n - 1).balances, row) else 0.0
  }

  lemma {:induction false} ShortfallNext(s: State, key: KeyId, m: nat, n: nat, a: Account, e: State)
    requires m < n == m + 1 <= |s.plans| && e == ForfeitKey(s, key, m)
    ensures var row := s.plans[m];
      KeyShortfall(s, key, n, a)
      == KeyShortfall(s, key, m, a) + if row.status == Active && row.key == Some(key) && row.account == a
          then Shortfall(e.balances, row) else 0.0
  {
  }

  lemma {:induction false} KeySurplus(s: State, key: KeyId, n: nat, a: Account, q: State)
    requires n <= |s.plans| && q == ForfeitKey(s, key, n)
    ensures Surplus(q.balances, q.plans, a) == Surplus(s.balances, s.plans, a) + KeyShortfall(s, key, n, a)
    decreases n
  {
    if n > 0 {
      var m := n - 1;
      var e := ForfeitKey(s, key, m);
      KeySurplus(s, key, m, a, e);
      ForfeitKeyNext(s, key, m, n, e, q);
      ShortfallNext(s, key, m, n, a, e);
      if s.plans[m].status == Active && s.plans[m].key == Some(key) { ForfeitSurplus(e, m, a); }
    }
  }

  lemma {:induction false} UnlockTakes(t: Table, row: Installment, a: Account)
    requires UnpaidPrincipal(row) > 0 ==> CanDebit(t, row.account, ContributionLocked, UnpaidPrincipal(row) as real)
    ensures Bal(UnlockTable(t, row), a, ContributionLocked)
            == Bal(t, a, ContributionLocked) - (if row.account == a then UnpaidPrincipal(row) else 0) as real
  {
  }

  lemma {:induction false} UnlockSurplus(s: State, b: Account, i: nat, a: Account, q: State)
    requires q == EarlyUnlock(s, b, i).0
    ensures Surplus(q.balances, q.plans, a) == Surplus(s.balances, s.plans, a)
  {
    if EarlyUnlock(s, b, i).1.Exited? {
      var row := s.plans[i];
      UnlockTakes(s.balances, row, a);
      KeptUpdate(s.plans, i, UnlockRow(row), a);
      KeptAfterUnlock(row);
    }
  }

  lemma {:induction false} KeptAfterUnlock(row: Installment)
    requires row.status == Active
    ensures Kept(UnlockRow(row)) == Kept(row) - UnpaidPrincipal(row) as real
  {
  }

  lemma {:induction false} LockSurplus(s: State, b: Account, amount: real, days: int, threshold: real,
                                       key: Option<KeyId>,
                                       now: int, a: Account)
    ensures var q := LockContribution(s, b, amount, days, threshold, key, now).0;
      Surplus(q.balances, q.plans, a) == Surplus(s.balances, s.plans, a)
  {
    if LockContribution(s, b, amount, days, threshold, key, now).1.LockedAs? {
      var row := NewPlan(b, amount, days, key, now);
      assert Kept(row) == amount;
      KeptAppend(s.plans, row, a);
    }
  }

  lemma {:induction false} SpendLeavesLocked(t: Table, b: Account, x: real, a: Account)
    requires Spend(t, b, x).Spent?
    ensures Bal(Spend(t, b, x).table, a, ContributionLocked) == Bal(t, a, ContributionLocked)
  {
    if x > 0.0 { SpendOverFrame(t, b, SPEND_ORDER, Round(x), map[]); }
  }

  lemma {:induction false} SpendOpLeavesLocked(s: State, b: Account, x: real, a: Account, q: State)
    requires q == SpendFromPools(s, b, x)
    ensures Bal(q.balances, a, ContributionLocked) == Bal(s.balances, a, ContributionLocked) && q.plans == s.plans
  {
    if Spend(s.balances, b, x).Spent? { SpendLeavesLocked(s.balances, b, x, a); }
  }

  lemma {:induction false} ReserveLeavesLocked(s: State, b: Account, id: TaskId, estimate: real, a: Account, q: State)
    requires q == ReserveForTask(s, b, id, estimate).0
    ensures Bal(q.balances, a, ContributionLocked) == Bal(s.balances, a, ContributionLocked) && q.plans == s.plans
  {
    var reserved := AmountToReserve(s.balances, b, estimate);
    if Spend(s.balances, b, reserved).Spent? { SpendLeavesLocked(s.balances, b, reserved, a); }
  }

  lemma {:induction false} FinalizeLeavesLocked(s: State, id: TaskId, actual: real, a: Account, q: State)
    requires q == FinalizeTask(s, id, actual).0
    ensures Bal(q.balances, a, ContributionLocked) == Bal(s.balances, a, ContributionLocked) && q.plans == s.plans
  {
    var i := FindTask(s.tasks, id);
    if i < |s.tasks| {
      var (b, extra) := (s.tasks[i].account, actual - s.tasks[i].reserved);
      if Spend(s.balances, b, extra).Spent? { SpendLeavesLocked(s.balances, b, extra, a); }
    }
  }

  /** What an operation puts into the locked pool, or leaves there, that no plan keeps. */
  function SurplusFlow(s: State, op: Op, a: Account): (r: real)
    ensures r >= 0.0
  {
    match op
    case CreditOp(b, p, x) => if a == b && p == ContributionLocked then Max(0.0, x) else 0.0
    case KeyFailureOp(failed) => KeyShortfall(s, failed, |s.plans|, a)
    case _ => 0.0
  }

  lemma {:induction false} StepSurplus(s: State, op: Op, a: Account)
    ensures var q := Step(s, op);
      Surplus(q.balances, q.plans, a) == Surplus(s.balances, s.plans, a) + SurplusFlow(s, op, a)
  {
    match op
    case CreditOp(b, p, x) =>
    case SpendOp(b, x) => SpendOpLeavesLocked(s, b, x, a, Step(s, op));
    case ReserveOp(b, id, estimate) => ReserveLeavesLocked(s, b, id, estimate, a, Step(s, op));
    case FinalizeOp(id, actual) => FinalizeLeavesLocked(s, id, actual, a, Step(s, op));
    case LockOp(b, amount, days, threshold, key, now) => LockSurplus(s, b, amount, days, threshold, key, now, a);
    case ProcessOp(who, force, now) =>
      var p := Payments(s.balances, s.plans, []);
      PassSurplus(p, |s.plans|, who, force, now, a, PayRows(p, |s.plans|, who, force, now));
    case EarlyUnlockOp(b, plan) => UnlockSurplus(s, b, plan, a, Step(s, op));
    case KeyFailureOp(failed) => KeySurplus(s, failed, |s.plans|, a, Step(s, op));
    case FaultCreditOp(amount) =>
    case FaultDebitOp(amount) =>
  }

  function SurplusIn(s: State, ops: seq<Op>, a: Account): (r: real)
    ensures r >= 0.0
  {
    if |ops| == 0 then 0.0
    else SurplusIn(s, ops[..|ops| - 1], a) + SurplusFlow(Run(s, ops[..|ops| - 1]), ops[|ops| - 1], a)
  }

  /**
    Over every run, whatever the amounts: an account's locked balance is what its
    plans keep, plus what key failures found missing and what was credited directly.
   */
  lemma {:induction false} LockedBalanceIs(s: State, ops: seq<Op>, a: Account)
    ensures var q := Run(s, ops);
      Bal(q.balances, a, ContributionLocked)
      == KeptBy(q.plans, a) + Surplus(s.balances, s.plans, a) + SurplusIn(s, ops, a)
  {
    if |ops| > 0 {
      LockedBalanceIs(s, ops[..|ops| - 1], a);
      StepSurplus(Run(s, ops[..|ops| - 1]), ops[|ops| - 1], a);
    }
  }

  // ---- what every run keeps, whatever the amounts

  predicate SoundPlan(row: Installment) {
    Lawful(row) && (row.status == Active || row.status == Completed || row.paid < PERIODS)
  }

  predicate SoundPlans(t: Table, plans: seq<Installment>) {
    forall row <- plans :: SoundPlan(row) && (row.account, ContributionLocked) in t
  }

  predicate Sound(s: State) {
    NonNegative(s.balances) && SoundPlans(s.balances, s.plans)
  }

  lemma {:induction false} SoundUpdate(t: Table, plans: seq<Installment>, u: Table, i: nat, row: Installment)
    requires SoundPlans(t, plans) && i < |plans| && t.Keys <= u.Keys
    requires SoundPlan(row) && row.account == plans[i].account
    ensures SoundPlans(u, plans[i := row])
  {
    forall r <- plans[i := row] ensures SoundPlan(r) && (r.account, ContributionLocked) in u {
      assert r == row || r in plans;
      assert plans[i] in plans;
    }
  }

  lemma {:induction false} PaymentsNonNegative(row: Installment)
    requires Lawful(row) && row.paid < PERIODS
    ensures NextPrincipal(row) >= 0 && NextReward(row) >= 0
  {
    RewardTotalNonNegative(row);
    RewardPaymentsNonNegative(RewardTotal(row), row.paid);
    RoundMonotone(0.0, row.total / 3.0);
    RoundWhole(0);
    if row.paid == PERIODS - 1 {
      RestNonNegativeIff(row);
      RoundMonotone(-0.5, Rest(row));
      RoundIsUnique(-0.5, 0);
    }
  }

  lemma {:induction false} PaidTableSound(t: Table, row: Installment)
    requires NonNegative(t) && NextPrincipal(row) >= 0 && NextReward(row) >= 0
    requires CanDebit(t, row.account, ContributionLocked, NextPrincipal(row) as real)
    ensures NonNegative(PaidTable(t, row)) && t.Keys <= PaidTable(t, row).Keys
  {
    PaidTableKeeps(t, row);
  }

  lemma {:induction false} PayRowSound(p: Payments, i: nat, who: Option<Account>, force: bool, now: int)
    requires i < |p.plans| && NonNegative(p.table) && SoundPlans(p.table, p.plans)
    ensures var q := PayRow(p, i, who, force, now);
      NonNegative(q.table) && SoundPlans(q.table, q.plans)
  {
    var row := p.plans[i];
    var due := NextPrincipal(row) as real;
    if Payable(row, who, force, now) && CanDebit(p.table, row.account, ContributionLocked, due) {
      assert row in p.plans;
      PaymentsNonNegative(row);
      PaidTableSound(p.table, row);
      SoundUpdate(p.table, p.plans, PaidTable(p.table, row), i, PaidRow(row, now));
    }
  }

  lemma {:induction false} PassSound(p: Payments, n: nat, who: Option<Account>, force: bool, now: int, q: Payments)
    requires n <= |p.plans| && NonNegative(p.table) && SoundPlans(p.table, p.plans)
    requires q == PayRows(p, n, who, force, now)
    ensures NonNegative(q.table) && SoundPlans(q.table, q.plans)
    decreases n
  {
    if n > 0 {
      var m := n - 1;
      var e := PayRows(p, m, who, force, now);
      PassNext(p, m, n, who, force, now, e, q);
      PassSound(p, m, who, force, now, e);
      PayRowSound(e, m, who, force, now);
    }
  }

  lemma {:induction false} ForfeitSound(s: State, i: nat)
    requires Sound(s)
    ensures Sound(ForfeitPlan(s, i).0)
  {
    if i < |s.plans| && s.plans[i].status == Active {
      assert s.plans[i] in s.plans;
      SoundUpdate(s.balances, s.plans, ForfeitTable(s.balances, s.plans[i]), i, ForfeitRow(s.balances, s.plans[i]));
    }
  }

  lemma {:induction false} KeySound(s: State, key: KeyId, n: nat, q: State)
    requires Sound(s) && n <= |s.plans| && q == ForfeitKey(s, key, n)
    ensures Sound(q)
    decreases n
  {
    if n > 0 {
      var m := n - 1;
      var e := ForfeitKey(s, key, m);
      KeySound(s, key, m, e);
      ForfeitKeyNext(s, key, m, n, e, q);
      ForfeitSound(e, m);
    }
  }

  lemma {:induction false} UnlockSound(s: State, b: Account, i: nat)
    requires Sound(s)
    ensures Sound(EarlyUnlock(s, b, i).0)
  {
    if EarlyUnlock(s, b, i).1.Exited? {
      assert s.plans[i] in s.plans;
      SoundUpdate(s.balances, s.plans, UnlockTable(s.balances, s.plans[i]), i, UnlockRow(s.plans[i]));
    }
  }

  lemma {:induction false} PlansStaySound(t: Table, plans: seq<Installment>, u: Table)
    requires SoundPlans(t, plans) && t.Keys <= u.Keys
    ensures SoundPlans(u, plans)
  {
  }

  lemma {:induction false} LockSound(s: State, b: Account, amount: real, days: int, threshold: real,
                                     key: Option<KeyId>, now: int)
    requires Sound(s)
    ensures Sound(LockContribution(s, b, amount, days, threshold, key, now).0)
  {
    if LockContribution(s, b, amount, days, threshold, key, now).1.LockedAs? {
      PlansStaySound(s.balances, s.plans, LockTable(s.balances, b, amount));
    }
  }

  lemma {:induction false} SpendSound(t: Table, b: Account, x: real)
    requires NonNegative(t) && Spend(t, b, x).Spent?
    ensures NonNegative(Spend(t, b, x).table) && Spend(t, b, x).table.Keys == t.Keys
  {
    SpendTakesExactly(t, b, x);
  }

  /** A debit of spendable credit keeps the store sound, whatever becomes of tasks and ledger. */
  lemma {:induction false} SpentSound(s: State, b: Account, x: real, q: State)
    requires Sound(s) && Spend(s.balances, b, x).Spent?
    requires q.balances == Spend(s.balances, b, x).table && q.plans == s.plans
    ensures Sound(q)
  {
    SpendSound(s.balances, b, x);
    PlansStaySound(s.balances, s.plans, q.balances);
  }

  lemma {:induction false} ReserveSound(s: State, b: Account, id: TaskId, estimate: real, q: State)
    requires Sound(s) && q == ReserveForTask(s, b, id, estimate).0
    ensures Sound(q)
  {
    if ReserveForTask(s, b, id, estimate).1.Held? { SpentSound(s, b, AmountToReserve(s.balances, b, estimate), q); }
  }

  lemma {:induction false} FinalizeSound(s: State, id: TaskId, actual: real, q: State)
    requires Sound(s) && q == FinalizeTask(s, id, actual).0
    ensures Sound(q)
  {
    if FinalizeTask(s, id, actual).1.Settled? {
      var t := s.tasks[FindTask(s.tasks, id)];
      if actual > t.reserved { SpentSound(s, t.account, actual - t.reserved, q); }
      else { PlansStaySound(s.balances, s.plans, q.balances); }
    }
  }

  lemma {:induction false} StepSound(s: State, op: Op)
    requires Sound(s)
    ensures Sound(Step(s, op))
  {
    match op
    case CreditOp(b, p, x) =>
    case SpendOp(b, x) => if Spend(s.balances, b, x).Spent? { SpentSound(s, b, x, Step(s, op)); }
    case ReserveOp(b, id, estimate) => ReserveSound(s, b, id, estimate, Step(s, op));
    case FinalizeOp(id, actual) => FinalizeSound(s, id, actual, Step(s, op));
    case LockOp(b, amount, days, threshold, key, now) => LockSound(s, b, amount, days, threshold, key, now);
    case ProcessOp(who, force, now) =>
      var p := Payments(s.balances, s.plans, []);
      PassSound(p, |s.plans|, who, force, now, PayRows(p, |s.plans|, who, force, now));
    case EarlyUnlockOp(b, plan) => UnlockSound(s, b, plan);
    case KeyFailureOp(failed) => KeySound(s, failed, |s.plans|, Step(s, op));
    case FaultCreditOp(amount) =>
    case FaultDebitOp(amount) =>
  }

  /** Over every run, with no condition at all, no balance is overdrawn and every plan stays lawful. */
  lemma {:induction false} RunSound(s: State, ops: seq<Op>)
    requires Sound(s)
    ensures Sound(Run(s, ops))
  {
    if |ops| > 0 {
      RunSound(s, ops[..|ops| - 1]);
      StepSound(Run(s, ops[..|ops| - 1]), ops[|ops| - 1]);
    }
  }

  // ---- exactly when the locked pool is short

  /** What the account's other plans keep in the pool it shares with plan i. */
  function OthersKeep(plans: seq<Installment>, i: nat): real
    requires i < |plans|
  {
    KeptBy(plans, plans[i].account) - Kept(plans[i])
  }

  /** A payment is refused exactly when the rounding it adds exceeds what else is in the shared pool. */
  lemma {:induction false} RefusedIff(p: Payments, i: nat)
    requires i < |p.plans| && p.plans[i].status == Active && p.plans[i].paid < PERIODS
    requires (p.plans[i].account, ContributionLocked) in p.table
    ensures var row := p.plans[i];
      var spare := OthersKeep(p.plans, i) + Surplus(p.table, p.plans, row.account);
      && (!CanDebit(p.table, row.account, ContributionLocked, NextPrincipal(row) as real)
          <==> spare < NextPrincipal(row) as real - Rest(row))
      && (!CanDebit(p.table, row.account, ContributionLocked, UnpaidPrincipal(row) as real)
          <==> spare < UnpaidPrincipal(row) as real - Rest(row))
  {
  }

  /**
    For every run and every pass after it, exactly when a payment that is due is
    refused: the pool is shared, so what counts is what the account's other plans
    keep there. The last payment adds the rounding of the whole total.
   */
  lemma {:induction false} PaymentRefusedIff(s: State, ops: seq<Op>, who: Option<Account>, force: bool, now: int,
                                             i: nat)
    requires Sound(s) && i < |Run(s, ops).plans| && Payable(Run(s, ops).plans[i], who, force, now)
    ensures var q := Run(s, ops);
      var row := q.plans[i];
      var before := PayRows(Payments(q.balances, q.plans, []), i, who, force, now);
      var after := PayRows(Payments(q.balances, q.plans, []), i + 1, who, force, now);
      var added := NextPrincipal(row) as real - Rest(row);
      var extra := Surplus(s.balances, s.plans, row.account) + SurplusIn(s, ops, row.account);
      && before.plans[i] == row
      && (after.plans[i] == row <==> OthersKeep(before.plans, i) + extra < added)
      && (row.paid == PERIODS - 1 ==> added == Round(row.total) as real - row.total)
  {
    var q := Run(s, ops);
    var row := q.plans[i];
    var p := Payments(q.balances, q.plans, []);
    var before := PayRows(p, i, who, force, now);
    RunSound(s, ops);
    PassSound(p, i, who, force, now, before);
    assert before.plans[i] in before.plans;
    LockedBalanceIs(s, ops, row.account);
    PassSurplus(p, i, who, force, now, row.account, before);
    RefusedIff(before, i);
    if row.paid == PERIODS - 1 {
      LastPrincipal(row);
      SmallTimes(row.per);
    }
  }

  /** For every run, exactly when an early unlock is refused for want of locked credit. */
  lemma {:induction false} UnlockRefusedIff(s: State, ops: seq<Op>, i: nat)
    requires Sound(s) && i < |Run(s, ops).plans| && Run(s, ops).plans[i].status == Active
    ensures var q := Run(s, ops);
      var row := q.plans[i];
      var spare := OthersKeep(q.plans, i) + Surplus(s.balances, s.plans, row.account) + SurplusIn(s, ops, row.account);
      EarlyUnlock(q, row.account, i).1 == LockShort <==> spare < UnpaidPrincipal(row) as real - Rest(row)
  {
    var q := Run(s, ops);
    RunSound(s, ops);
    assert q.plans[i] in q.plans;
    LockedBalanceIs(s, ops, q.plans[i].account);
    RefusedIff(Payments(q.balances, q.plans, []), i);
  }

  /** For every run, exactly when a key failure finds less in the pool than a plan has unpaid. */
  lemma {:induction false} ForfeitShortIff(s: State, ops: seq<Op>, key: KeyId, i: nat, e: State)
    requires Sound(s) && i < |Run(s, ops).plans| && e == ForfeitKey(Run(s, ops), key, i)
    requires Run(s, ops).plans[i].status == Active
    ensures var row := Run(s, ops).plans[i];
      var spare := OthersKeep(e.plans, i) + Surplus(s.balances, s.plans, row.account) + SurplusIn(s, ops, row.account)
                   + KeyShortfall(Run(s, ops), key, i, row.account);
      && e.plans[i] == row
      && (Shortfall(e.balances, row) > 0.0 <==> spare < UnpaidPrincipal(row) as real - Rest(row))
  {
    var q := Run(s, ops);
    var row := q.plans[i];
    RunSound(s, ops);
    KeySound(q, key, i, e);
    assert e.plans[i] in e.plans;
    LockedBalanceIs(s, ops, row.account);
    KeySurplus(q, key, i, row.account, e);
    RefusedIff(Payments(e.balances, e.plans, []), i);
  }

  // ---- locks below half a unit never find it short

  predicate BelowHalf(x: real) {
    x - x.Floor as real < 0.5
  }

  predicate AllBelowHalf(plans: seq<Installment>, a: Account) {
    forall row <- plans :: row.account == a ==> BelowHalf(row.total)
  }

  lemma {:induction false} BelowHalfThirds(row: Installment)
    requires Running(row) && BelowHalf(row.total)
    ensures row.per == (row.total.Floor + 1) / 3
  {
    RoundIsUnique(row.total / 3.0, (row.total.Floor + 1) / 3);
  }

  /** Below half a unit every rounding goes down: nothing owed exceeds the rest, and ended plans leave no debt. */
  lemma {:induction false} BelowHalfKeeps(row: Installment)
    requires SoundPlan(row) && BelowHalf(row.total)
    ensures Kept(row) >= 0.0
    ensures row.paid < PERIODS ==> NextPrincipal(row) as real <= Rest(row) && UnpaidPrincipal(row) as real <= Rest(row)
  {
    RoundIsUnique(row.total, row.total.Floor);
    if row.paid < PERIODS {
      BelowHalfThirds(row);
      RestIs(row);
      var left := row.total.Floor - (if row.paid == 0 then 0 else if row.paid == 1 then row.per else 2 * row.per);
      RoundIsUnique(Rest(row), left);
    }
  }

  lemma {:induction false} OthersNonNegative(plans: seq<Installment>, t: Table, a: Account)
    requires SoundPlans(t, plans) && AllBelowHalf(plans, a)
    ensures KeptBy(plans, a) >= 0.0
    ensures forall i :: 0 <= i < |plans| && plans[i].account == a ==> KeptBy(plans, a) >= Kept(plans[i])
  {
    if |plans| > 0 {
      var last := plans[|plans| - 1];
      assert last in plans;
      OthersNonNegative(plans[..|plans| - 1], t, a);
      if last.account == a { BelowHalfKeeps(last); }
    }
  }

  lemma {:induction false} PassTerms(p: Payments, n: nat, who: Option<Account>, force: bool, now: int, a: Account,
                                     q: Payments)
    requires n <= |p.plans| && AllBelowHalf(p.plans, a) && q == PayRows(p, n, who, force, now)
    ensures AllBelowHalf(q.plans, a)
    decreases n
  {
    if n > 0 {
      var m := n - 1;
      var e := PayRows(p, m, who, force, now);
      PassNext(p, m, n, who, force, now, e, q);
      PassTerms(p, m, who, force, now, a, e);
      assert e.plans[m] in e.plans;
    }
  }

  /**
    For every run: while an account's lock totals all lie less than half a unit
    above a whole number, no due payment and no early unlock of it is refused.
   */
  lemma {:induction false} BelowHalfNeverShort(s: State, ops: seq<Op>, who: Option<Account>, force: bool, now: int,
                                               i: nat)
    requires Sound(s) && i < |Run(s, ops).plans| && Run(s, ops).plans[i].status == Active
    requires AllBelowHalf(Run(s, ops).plans, Run(s, ops).plans[i].account)
    requires Surplus(s.balances, s.plans, Run(s, ops).plans[i].account) >= 0.0
    ensures var q := Run(s, ops);
      var row := q.plans[i];
      && EarlyUnlock(q, row.account, i).1 != LockShort
      && (Payable(row, who, force, now) ==>
            PayRows(Payments(q.balances, q.plans, []), i + 1, who, force, now).plans[i] != row)
  {
    var q := Run(s, ops);
    var row := q.plans[i];
    RunSound(s, ops);
    assert row in q.plans;
    BelowHalfKeeps(row);
    OthersNonNegative(q.plans, q.balances, row.account);
    UnlockRefusedIff(s, ops, i);
    if Payable(row, who, force, now) {
      var p := Payments(q.balances, q.plans, []);
      var before := PayRows(p, i, who, force, now);
      PassSound(p, i, who, force, now, before);
      PassTerms(p, i, who, force, now, row.account, before);
      OthersNonNegative(before.plans, before.table, row.account);
      PaymentRefusedIff(s, ops, who, force, now, i);
    }
  }

  // ---- a lock off the grid stalls, and stalls the account's other locks

  /** A 30-day plan with nothing but payments behind it. */
  function RunningPlan(a: Account, total: real, per: int, paid: nat): Installment {
    Installment(a, total, per, paid, 30, Active, Some(IntervalDays(30) * SECONDS_PER_DAY), None, IntervalDays(30), 0.0)
  }

  /** A lock of 0.6 units and one of 3 units of one account, after k payments of each. */
  predicate Pair(s: State, a: Account, k: nat) {
    && s.plans == [RunningPlan(a, 0.6, 0, k), RunningPlan(a, 3.0, 1, k)]
    && (a, ContributionLocked) in s.balances && s.balances[(a, ContributionLocked)] == 3.6 - k as real
  }

  const FORCED_PASS := ProcessOp(None, true, 0)

  function LockNow(a: Account, amount: real): Op {
    LockOp(a, amount, 30, 0.0, None, 0)
  }

  lemma {:induction false} PairRounds()
    ensures PerInstallment(0.6) == 0 && PerInstallment(3.0) == 1
    ensures Round(0.6) == 1 && Round(3.0) == 3
  {
    RoundIsUnique(0.2, 0);
    RoundIsUnique(1.0, 1);
    RoundIsUnique(0.6, 1);
    RoundIsUnique(3.0, 3);
  }

  lemma {:induction false} PairStarts(s: State, a: Account)
    requires s.balances == map[] && s.plans == []
    ensures Pair(Step(Step(Step(s, CreditOp(a, ContributionUnlocked, 3.6)), LockNow(a, 0.6)), LockNow(a, 3.0)), a, 0)
  {
    PairRounds();
    var s1 := Step(s, CreditOp(a, ContributionUnlocked, 3.6));
    var s2 := Step(s1, LockNow(a, 0.6));
    assert Bal(s2.balances, a, ContributionUnlocked) == 3.0;
    assert s2.plans == [RunningPlan(a, 0.6, 0, 0)];
  }

  /** What the two plans owe next. */
  lemma {:induction false} PairOwes(a: Account, k: nat)
    requires k < PERIODS
    ensures NextPrincipal(RunningPlan(a, 0.6, 0, k)) == if k == 2 then 1 else 0
    ensures NextPrincipal(RunningPlan(a, 3.0, 1, k)) == 1
    ensures UnpaidPrincipal(RunningPlan(a, 3.0, 1, 2)) == 1
  {
    PairRounds();
    if k == 2 {
      LastPrincipal(RunningPlan(a, 0.6, 0, 2));
      LastPrincipal(RunningPlan(a, 3.0, 1, 2));
    }
    SmallTimes(1);
    RoundIsUnique(1.0, 1);
  }

  lemma {:induction false} PairPays(s: State, a: Account, k: nat)
    requires Pair(s, a, k) && k < 2
    ensures Pair(Step(s, FORCED_PASS), a, k + 1)
  {
    PairOwes(a, k);
    var p := Payments(s.balances, s.plans, []);
    var first := PayRow(p, 0, None, true, 0);
    assert PayRows(p, 1, None, true, 0) == first;
    assert first.plans == [RunningPlan(a, 0.6, 0, k + 1), RunningPlan(a, 3.0, 1, k)];
    assert first.table[(a, ContributionLocked)] == 3.6 - k as real;
    var second := PayRow(first, 1, None, true, 0);
    assert PayRows(p, 2, None, true, 0) == second;
    assert second.plans == [RunningPlan(a, 0.6, 0, k + 1), RunningPlan(a, 3.0, 1, k + 1)];
  }

  /** The small lock has ended and the large one cannot: 1 unit is due and 0.6 are there. */
  predicate Stalled(s: State, a: Account) {
    && |s.plans| == 2
    && s.plans[0].status == Completed
    && s.plans[1] == RunningPlan(a, 3.0, 1, 2)
    && Bal(s.balances, a, ContributionLocked) == 0.6
  }

  lemma {:induction false} PairStalls(s: State, a: Account)
    requires Pair(s, a, 2)
    ensures Stalled(Step(s, FORCED_PASS), a)
  {
    PairOwes(a, 2);
    var p := Payments(s.balances, s.plans, []);
    var first := PayRow(p, 0, None, true, 0);
    assert PayRows(p, 1, None, true, 0) == first;
    assert first.table[(a, ContributionLocked)] == 0.6;
    assert PayRows(p, 2, None, true, 0) == PayRow(first, 1, None, true, 0) == first;
  }

  lemma {:induction false} RunExtends(s: State, ops: seq<Op>, op: Op)
    ensures Run(s, ops + [op]) == Step(Run(s, ops), op)
  {
    assert (ops + [op])[..|ops|] == ops;
  }

  function PairOps(a: Account): seq<Op> {
    [CreditOp(a, ContributionUnlocked, 3.6)] + [LockNow(a, 0.6)] + [LockNow(a, 3.0)] + [FORCED_PASS] + [FORCED_PASS]
        + [FORCED_PASS]
  }

  /**
    A run from the empty store after which a lock of a whole amount is stalled by
    an off-grid lock of the same account: no pass pays its last period, whatever
    the time, and early unlock is refused.
   */
  lemma {:induction false} SharedPoolStalls(settings: Settings, a: Account, who: Option<Account>, force: bool, now: int)
    ensures var q := Run(State(map[], [], [], settings, []), PairOps(a));
      && |q.plans| == 2 && q.plans[1].total == 3.0 && q.plans[1].status == Active && q.plans[1].paid == 2
      && ProcessInstallments(q, who, force, now).plans[1] == q.plans[1]
      && EarlyUnlock(q, a, 1).1 == LockShort
  {
    var s := State(map[], [], [], settings, []);
    var start := [CreditOp(a, ContributionUnlocked, 3.6)];
    RunExtends(s, [], start[0]);
    assert [] + start == start;
    RunExtends(s, start, LockNow(a, 0.6));
    RunExtends(s, start + [LockNow(a, 0.6)], LockNow(a, 3.0));
    var locked := start + [LockNow(a, 0.6)] + [LockNow(a, 3.0)];
    RunExtends(s, locked, FORCED_PASS);
    RunExtends(s, locked + [FORCED_PASS], FORCED_PASS);
    RunExtends(s, locked + [FORCED_PASS] + [FORCED_PASS], FORCED_PASS);
    PairStarts(s, a);
    PairPays(Run(s, locked), a, 0);
    PairPays(Run(s, locked + [FORCED_PASS]), a, 1);
    PairStalls(Run(s, locked + [FORCED_PASS] + [FORCED_PASS]), a);
    StaysStalled(Run(s, PairOps(a)), a, who, force, now);
  }

  lemma {:induction false} StaysStalled(q: State, a: Account, who: Option<Account>, force: bool, now: int)
    requires Stalled(q, a)
    ensures ProcessInstallments(q, who, force, now).plans[1] == q.plans[1]
    ensures EarlyUnlock(q, a, 1).1 == LockShort
  {
    PairOwes(a, 2);
    var p := Payments(q.balances, q.plans, []);
    assert PayRows(p, 1, who, force, now) == PayRow(p, 0, who, force, now) == p;
    assert PayRows(p, 2, who, force, now) == PayRow(p, 1, who, force, now) == p;
  }

  /**
    For every run: a plan without others in its account, whose locked pool holds
    its money only, never gets its last payment exactly when its total rounds up.
   */
  lemma {:induction false} LonePlanStallsIff(s: State, ops: seq<Op>, who: Option<Account>, force: bool, now: int,
                                             i: nat)
    requires Sound(s) && i < |Run(s, ops).plans| && Payable(Run(s, ops).plans[i], who, force, now)
    requires Run(s, ops).plans[i].paid == PERIODS - 1 && Alone(Run(s, ops).plans, i)
    requires var a := Run(s, ops).plans[i].account; Surplus(s.balances, s.plans, a) + SurplusIn(s, ops, a) == 0.0
    ensures var row := Run(s, ops).plans[i];
      ProcessInstallments(Run(s, ops), who, force, now).plans[i] == row <==> row.total < Round(row.total) as real
  {
    var q := Run(s, ops);
    var p := Payments(q.balances, q.plans, []);
    var before := PayRows(p, i, who, force, now);
    PaymentRefusedIff(s, ops, who, force, now, i);
    PassAccounts(p, i, who, force, now, before);
    AloneKeeps(before.plans, i);
    PassLeaves(p, i, |q.plans|, who, force, now, PayRows(p, i + 1, who, force, now),
               PayRows(p, |q.plans|, who, force, now));
  }

  /** The account of plan i has no other plan. */
  predicate Alone(plans: seq<Installment>, i: nat)
    requires i < |plans|
  {
    forall j :: 0 <= j < |plans| && j != i ==> plans[j].account != plans[i].account
  }

  /** Such a plan keeps all that its account's plans keep. */
  lemma {:induction false} AloneKeeps(plans: seq<Installment>, i: nat)
    requires i < |plans| && Alone(plans, i)
    ensures OthersKeep(plans, i) == 0.0
  {
    NoneKept(plans[..i], plans[i].account);
    KeptUpTo(plans, i, i + 1);
    KeptUpTo(plans, i, |plans|);
    assert plans[..|plans|] == plans;
  }

  lemma {:induction false} NoneKept(plans: seq<Installment>, a: Account)
    requires forall j :: 0 <= j < |plans| ==> plans[j].account != a
    ensures KeptBy(plans, a) == 0.0
  {
    if |plans| > 0 { NoneKept(plans[..|plans| - 1], a); }
  }

  lemma {:induction false} KeptUpTo(plans: seq<Installment>, i: nat, n: nat)
    requires i < n <= |plans| && Alone(plans, i)
    ensures KeptBy(plans[..n], plans[i].account) == Kept(plans[i])
  {
    var m := n - 1;
    assert plans[..n][..m] == plans[..m];
    if m == i { NoneKept(plans[..m], plans[i].account); } else { KeptUpTo(plans, i, m); }
  }

  lemma {:induction false} PassAccounts(p: Payments, n: nat, who: Option<Account>, force: bool, now: int, q: Payments)
    requires n <= |p.plans| && q == PayRows(p, n, who, force, now)
    ensures |q.plans| == |p.plans| && forall j :: 0 <= j < |p.plans| ==> q.plans[j].account == p.plans[j].account
    decreases n
  {
    if n > 0 {
      var m := n - 1;
      var e := PayRows(p, m, who, force, now);
      PassNext(p, m, n, who, force, now, e, q);
      PassAccounts(p, m, who, force, now, e);
    }
  }

  /** A pass leaves the rows behind it. */
  lemma {:induction false} PassLeaves(p: Payments, i: nat, n: nat, who: Option<Account>, force: bool, now: int,
                                      e: Payments, q: Payments)
    requires i < n <= |p.plans|
    requires e == PayRows(p, i + 1, who, force, now) && q == PayRows(p, n, who, force, now)
    ensures q.plans[i] == e.plans[i]
    decreases n
  {
    if n > i + 1 {
      var m := n - 1;
      var d := PayRows(p, m, who, force, now);
      PassNext(p, m, n, who, force, now, d, q);
      PassLeaves(p, i, m, who, force, now, e, d);
    }
  }

  // ---- conservation with its drift

  predicate Pays(p: Payments, i: nat, who: Option<Account>, force: bool, now: int)
    requires i < |p.plans|
  {
    var row := p.plans[i];
    Payable(row, who, force, now) && CanDebit(p.table, row.account, ContributionLocked, NextPrincipal(row) as real)
  }

  /** Principal and reward that a pass over the first n rows actually pays an account. */
  function PassPrincipal(p: Payments, n: nat, who: Option<Account>, force: bool, now: int, a: Account): int
    requires n <= |p.plans|
  {
    if n == 0 then 0
    else
      PassPrincipal(p, n - 1, who, force, now, a)
      + if p.plans[n - 1].account == a && Pays(PayRows(p, n - 1, who, force, now), n - 1, who, force, now)
        then NextPrincipal(p.plans[n - 1]) else 0
  }

  function PassReward(p: Payments, n: nat, who: Option<Account>, force: bool, now: int, a: Account): int
    requires n <= |p.plans|
  {
    if n == 0 then 0
    else
      PassReward(p, n - 1, who, force, now, a)
      + if p.plans[n - 1].account == a && Pays(PayRows(p, n - 1, who, force, now), n - 1, who, force, now)
        then NextReward(p.plans[n - 1]) else 0
  }

  lemma {:induction false} RowPaysOut(p: Payments, i: nat, who: Option<Account>, force: bool, now: int, a: Account)
    requires i < |p.plans|
    ensures var mine := p.plans[i].account == a && Pays(p, i, who, force, now);
      PaidOut(p.table, PayRow(p, i, who, force, now).table, a,
              if mine then NextPrincipal(p.plans[i]) else 0, if mine then NextReward(p.plans[i]) else 0)
  {
  }

  lemma {:induction false} PaidNext(p: Payments, m: nat, n: nat, who: Option<Account>, force: bool, now: int,
                                    a: Account, e: Payments)
    requires m < n == m + 1 <= |p.plans| && e == PayRows(p, m, who, force, now)
    ensures var mine := p.plans[m].account == a && Pays(e, m, who, force, now);
      && PassPrincipal(p, n, who, force, now, a)
         == PassPrincipal(p, m, who, force, now, a) + (if mine then NextPrincipal(p.plans[m]) else 0)
      && PassReward(p, n, who, force, now, a)
         == PassReward(p, m, who, force, now, a) + (if mine then NextReward(p.plans[m]) else 0)
  {
  }

  lemma {:induction false} PassPaysOut(p: Payments, n: nat, who: Option<Account>, force: bool, now: int, a: Account,
                                       q: Payments)
    requires n <= |p.plans| && q == PayRows(p, n, who, force, now)
    ensures PaidOut(p.table, q.table, a, PassPrincipal(p, n, who, force, now, a), PassReward(p, n, who, force, now, a))
    decreases n
  {
    if n > 0 {
      var m := n - 1;
      var e := PayRows(p, m, who, force, now);
      var row := p.plans[m];
      var mine := row.account == a && Pays(e, m, who, force, now);
      PassNext(p, m, n, who, force, now, e, q);
      PaidNext(p, m, n, who, force, now, a, e);
      PassPaysOut(p, m, who, force, now, a, e);
      RowPaysOut(e, m, who, force, now, a);
      PaidOutAdds(p.table, e.table, q.table, a,
                  PassPrincipal(p, m, who, force, now, a), PassReward(p, m, who, force, now, a),
                  if mine then NextPrincipal(row) else 0, if mine then NextReward(row) else 0);
    }
  }

  /** What the failure of a key takes from an account's plans among the first n. */
  function KeyTaken(s: State, key: KeyId, n: nat, a: Account): real
    requires n <= |s.plans|
  {
    if n == 0 then 0.0
    else
      var row := s.plans[n - 1];
      KeyTaken(s, key, n - 1, a)
      + if row.status == Active && row.key == Some(key) && row.account == a
        then ForfeitedPrincipal(ForfeitKey(s, key, n - 1).balances, row) else 0.0
  }

  /** From t to u: taken leaves the account's locked pool and nothing else changes. */
  predicate TakenFrom(t: Table, u: Table, a: Account, taken: real) {
    && Bal(t, a, ContributionLocked) - Bal(u, a, ContributionLocked) == taken
    && forall p :: p != ContributionLocked ==> Bal(u, a, p) == Bal(t, a, p)
  }

  lemma {:induction false} ForfeitTakes(t: Table, row: Installment, a: Account)
    ensures TakenFrom(t, ForfeitTable(t, row), a, if row.account == a then ForfeitedPrincipal(t, row) else 0.0)
  {
  }

  lemma {:induction false} TakenNext(s: State, key: KeyId, m: nat, n: nat, a: Account, e: State)
    requires m < n == m + 1 <= |s.plans| && e == ForfeitKey(s, key, m)
    ensures var row := s.plans[m];
      KeyTaken(s, key, n, a)
      == KeyTaken(s, key, m, a) + if row.status == Active && row.key == Some(key) && row.account == a
          then ForfeitedPrincipal(e.balances, row) else 0.0
  {
  }

  lemma {:induction false} KeyTakes(s: State, key: KeyId, n: nat, a: Account, q: State)
    requires n <= |s.plans| && q == ForfeitKey(s, key, n)
    ensures TakenFrom(s.balances, q.balances, a, KeyTaken(s, key, n, a)) && q.tasks == s.tasks
    decreases n
  {
    if n > 0 {
      var m := n - 1;
      var e := ForfeitKey(s, key, m);
      ForfeitKeyNext(s, key, m, n, e, q);
      TakenNext(s, key, m, n, a, e);
      KeyTakes(s, key, m, a, e);
      if s.plans[m].status == Active && s.plans[m].key == Some(key) {
        ForfeitTakes(e.balances, s.plans[m], a);
      }
    }
  }

  /** What an operation brings into an account's spendable credit, and into its contribution credit. */
  function SpendableGain(s: State, op: Op, a: Account): real {
    match op
    case CreditOp(b, p, x) => if a == b && p in SPEND_ORDER then Max(0.0, x) else 0.0
    case SpendOp(b, x) => if a == b && Spend(s.balances, b, x).Spent? then -(Due(x) as real) else 0.0
    case ProcessOp(who, force, now) =>
      var p := Payments(s.balances, s.plans, []);
      (PassPrincipal(p, |s.plans|, who, force, now, a) + PassReward(p, |s.plans|, who, force, now, a)) as real
    case _ => 0.0
  }

  function ContributionGain(s: State, op: Op, a: Account): real {
    match op
    case CreditOp(b, p, x) => if a == b && (p == ContributionUnlocked || p == ContributionLocked)
        then Max(0.0, x) else 0.0
    case ProcessOp(who, force, now) =>
      -(PassPrincipal(Payments(s.balances, s.plans, []), |s.plans|, who, force, now, a) as real)
    case EarlyUnlockOp(b, plan) =>
      if a == b && EarlyUnlock(s, b, plan).1.Exited? then -(Penalty(s.plans[plan]) as real) else 0.0
    case KeyFailureOp(failed) => -KeyTaken(s, failed, |s.plans|, a)
    case _ => 0.0
  }

  /**
    How far an operation drifts from conserving spendable credit, reservations and
    settled costs: by the rounding of a debit, by a reservation recorded without
    one, and by a second settlement.
   */
  function TaskDrift(s: State, op: Op, a: Account): real {
    match op
    case ReserveOp(b, id, estimate) =>
      var reserved := AmountToReserve(s.balances, b, estimate);
      var out := ReserveForTask(s, b, id, estimate).1;
      if a != b then 0.0
      else if out.Held? then reserved - Due(reserved) as real
      else if out == RecordWithoutDebit then reserved
      else 0.0
    case FinalizeOp(id, actual) =>
      if !FinalizeTask(s, id, actual).1.Settled? || a != s.tasks[FindTask(s.tasks, id)].account then 0.0
      else
        var t := s.tasks[FindTask(s.tasks, id)];
        var extra := actual - t.reserved;
        (if t.settled.Some? then t.reserved - t.settled.value else 0.0) + if extra > 0.0
            then extra - Round(extra) as real else 0.0
    case _ => 0.0
  }

  lemma {:induction false} ReserveDrifts(s: State, b: Account, id: TaskId, estimate: real, a: Account, q: State)
    requires NonNegative(s.balances) && q == ReserveForTask(s, b, id, estimate).0
    ensures Committed(q, a) == Committed(s, a) + TaskDrift(s, ReserveOp(b, id, estimate), a)
    ensures Contributed(q.balances, a) == Contributed(s.balances, a)
  {
    var out := ReserveForTask(s, b, id, estimate).1;
    var reserved := AmountToReserve(s.balances, b, estimate);
    if out.Held? {
      SpentDrifts(s.balances, b, reserved, a);
      TaskTotalAppend(s.tasks, q.tasks[|s.tasks|], a);
    } else if out == RecordWithoutDebit {
      TaskTotalAppend(s.tasks, q.tasks[|s.tasks|], a);
    }
  }

  lemma {:induction false} SpentDrifts(t: Table, b: Account, x: real, a: Account)
    requires NonNegative(t) && Spend(t, b, x).Spent?
    ensures var u := Spend(t, b, x).table;
      && Spendable(u, a) == Spendable(t, a) - (if a == b then Due(x) else 0) as real
      && Contributed(u, a) == Contributed(t, a)
  {
    SpendTakesExactly(t, b, x);
  }

  lemma {:induction false} FinalizeDrifts(s: State, id: TaskId, actual: real, a: Account)
    requires NonNegative(s.balances)
    ensures Committed(FinalizeTask(s, id, actual).0, a) == Committed(s, a) + TaskDrift(s, FinalizeOp(id, actual), a)
  {
    if FinalizeTask(s, id, actual).1.Settled? { SettleDriftIs(s, id, actual, a); }
  }

  lemma {:induction false} PassDrifts(s: State, who: Option<Account>, force: bool, now: int, a: Account)
    ensures var q := ProcessInstallments(s, who, force, now);
      && Committed(q, a) == Committed(s, a) + SpendableGain(s, ProcessOp(who, force, now), a)
      && Contributed(q.balances, a) == Contributed(s.balances, a) + ContributionGain(s, ProcessOp(who, force, now), a)
  {
    var p := Payments(s.balances, s.plans, []);
    PassPaysOut(p, |s.plans|, who, force, now, a, PayRows(p, |s.plans|, who, force, now));
  }

  lemma {:induction false} UnlockDrifts(s: State, b: Account, i: nat, a: Account)
    requires Sound(s)
    ensures var q := EarlyUnlock(s, b, i).0;
      && Committed(q, a) == Committed(s, a)
      && Contributed(q.balances, a) == Contributed(s.balances, a) + ContributionGain(s, EarlyUnlockOp(b, i), a)
  {
    if EarlyUnlock(s, b, i).1.Exited? {
      assert s.plans[i] in s.plans;
      EarlyUnlockSplits(s.plans[i]);
      UnlockMoves(s.balances, s.plans[i], a);
    }
  }

  lemma {:induction false} UnlockMoves(t: Table, row: Installment, a: Account)
    requires UnpaidPrincipal(row) > 0 ==> CanDebit(t, row.account, ContributionLocked, UnpaidPrincipal(row) as real)
    ensures var u := UnlockTable(t, row);
      && Spendable(u, a) == Spendable(t, a)
      && Contributed(u, a) == Contributed(t, a)
        - (if a == row.account then UnpaidPrincipal(row) - ReturnedPrincipal(row) else 0) as real
  {
  }

  lemma {:induction false} LockDrifts(s: State, b: Account, amount: real, days: int, threshold: real,
                                      key: Option<KeyId>,
                                      now: int, a: Account)
    ensures var q := LockContribution(s, b, amount, days, threshold, key, now).0;
      Committed(q, a) == Committed(s, a) && Contributed(q.balances, a) == Contributed(s.balances, a)
  {
    LockLeavesSpendable(s, b, amount, days, threshold, key, now);
    LockLeavesRest(s, b, amount, days, threshold, key, now);
  }

  lemma {:induction false} CreditDrifts(s: State, b: Account, p: Pool, x: real, a: Account)
    ensures var q := CreditPool(s, b, p, x);
      && Committed(q, a) == Committed(s, a) + SpendableGain(s, CreditOp(b, p, x), a)
      && Contributed(q.balances, a) == Contributed(s.balances, a) + ContributionGain(s, CreditOp(b, p, x), a)
  {
  }

  lemma {:induction false} StepDrifts(s: State, op: Op, a: Account)
    requires Sound(s)
    ensures Committed(Step(s, op), a) == Committed(s, a) + SpendableGain(s, op, a) + TaskDrift(s, op, a)
    ensures Contributed(Step(s, op).balances, a) == Contributed(s.balances, a) + ContributionGain(s, op, a)
  {
    match op
    case CreditOp(b, p, x) => CreditDrifts(s, b, p, x, a);
    case SpendOp(b, x) => SpendFlow(s, b, x, a);
    case ReserveOp(b, id, estimate) => ReserveDrifts(s, b, id, estimate, a, Step(s, op));
    case FinalizeOp(id, actual) =>
      FinalizeDrifts(s, id, actual, a);
      FinalizeLeavesContributed(s, id, actual, a);
    case LockOp(b, amount, days, threshold, key, now) => LockDrifts(s, b, amount, days, threshold, key, now, a);
    case ProcessOp(who, force, now) => PassDrifts(s, who, force, now, a);
    case EarlyUnlockOp(b, plan) => UnlockDrifts(s, b, plan, a);
    case KeyFailureOp(failed) => KeyTakes(s, failed, |s.plans|, a, Step(s, op));
    case FaultCreditOp(amount) =>
    case FaultDebitOp(amount) =>
  }

  function SpendableGains(s: State, ops: seq<Op>, a: Account): real {
    if |ops| == 0 then 0.0
    else SpendableGains(s, ops[..|ops| - 1], a) + SpendableGain(Run(s, ops[..|ops| - 1]), ops[|ops| - 1], a)
  }

  function ContributionGains(s: State, ops: seq<Op>, a: Account): real {
    if |ops| == 0 then 0.0
    else ContributionGains(s, ops[..|ops| - 1], a) + ContributionGain(Run(s, ops[..|ops| - 1]), ops[|ops| - 1], a)
  }

  function TaskDrifts(s: State, ops: seq<Op>, a: Account): real {
    if |ops| == 0 then 0.0
    else TaskDrifts(s, ops[..|ops| - 1], a) + TaskDrift(Run(s, ops[..|ops| - 1]), ops[|ops| - 1], a)
  }

  /**
    Over every run, with no condition on amounts, statuses or ids: spendable credit,
    reservations and settled costs add up to what came in plus the drift of the task
    operations; contribution credit adds up to what came in.
   */
  lemma {:induction false} RunDrifts(s: State, ops: seq<Op>, a: Account)
    requires Sound(s)
    ensures Committed(Run(s, ops), a) == Committed(s, a) + SpendableGains(s, ops, a) + TaskDrifts(s, ops, a)
    ensures Contributed(Run(s, ops).balances, a) == Contributed(s.balances, a) + ContributionGains(s, ops, a)
  {
    if |ops| > 0 {
      var earlier := ops[..|ops| - 1];
      RunDrifts(s, earlier, a);
      RunSound(s, earlier);
      StepDrifts(Run(s, earlier), ops[|ops| - 1], a);
    }
  }

  /** A single operation drifts by at most half a unit, unless it orphans a record or settles a task again. */
  lemma {:induction false} DriftIsSmall(s: State, op: Op, a: Account)
    requires op.ReserveOp? ==> op.estimate >= 0.0 && ReserveForTask(s, op.a, op.id, op.estimate).1 != RecordWithoutDebit
    requires op.FinalizeOp? && FindTask(s.tasks, op.id) < |s.tasks| ==> s.tasks[FindTask(s.tasks, op.id)].settled.None?
    ensures -0.5 <= TaskDrift(s, op, a) <= 0.5
  {
  }
}
