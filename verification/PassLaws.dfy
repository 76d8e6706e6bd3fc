/**
  What a payment pass does, in terms of the plans' own dates, accounts and counts:
  whom it pays, whom it leaves, and how a plan paid on time runs its term.
 */
module PassLaws {
  import opened Collections
  import opened Money
  import opened Balances
  import opened LockPlans
  import opened FaultLedger
  import opened Store
  import opened StoreLaws
  import opened PlanLaws

  /** A pass is for every account or for one. */
  predicate Concerns(who: Option<Account>, row: Installment) {
    who == None || who == Some(row.account)
  }

  /** One period further: the third completes the plan, before that the next date is an interval from now. */
  predicate OnePaid(row: Installment, next: Installment, now: int) {
    && next.paid == row.paid + 1
    && next.account == row.account && next.total == row.total && next.per == row.per && next.key == row.key
    && next.lockDays == row.lockDays && next.intervalDays == row.intervalDays && next.forfeited == row.forfeited
    && (next.paid == 3 ==> next.status == Completed && next.nextDue == None)
    && (next.paid < 3 ==> next.status == Active && next.nextDue == Some(now + 86400 * row.intervalDays))
  }

  lemma {:induction false} AfterPassIs(row: Installment, who: Option<Account>, force: bool, now: int)
    requires Lawful(row)
    ensures var next := AfterPass(row, who, force, now);
      var due := row.status == Active && Concerns(who, row)
                 && (force || row.nextDue == None || row.nextDue.value <= now);
      if due then OnePaid(row, next, now) else next == row
  {
  }

  lemma {:induction false} PassOfRow(s: State, who: Option<Account>, force: bool, now: int, i: nat)
    requires LockInv(s.balances, s.plans) && i < |s.plans|
    ensures var (row, next) := (s.plans[i], ProcessInstallments(s, who, force, now).plans[i]);
      var due := row.status == Active && Concerns(who, row)
                 && (force || row.nextDue == None || row.nextDue.value <= now);
      if due then OnePaid(row, next, now) else next == row
  {
    var p := Payments(s.balances, s.plans, []);
    PayRowsPayAll(p, |s.plans|, who, force, now, i, PayRows(p, |s.plans|, who, force, now));
    assert s.plans[i] in s.plans;
    AfterPassIs(s.plans[i], who, force, now);
  }

  /**
    After every admissible run, an unforced pass pays one period of every active
    plan it concerns whose date has come, touches no other, and leaves none of them
    due; a forced pass pays one period of every active plan it concerns.
   */
  lemma {:induction false} PassPaysTheDue(s: State, ops: seq<Op>, who: Option<Account>, force: bool, now: int, i: nat)
    requires Inv(s) && AdmissibleRun(s, ops) && i < |Run(s, ops).plans|
    ensures var (row, next) := (Run(s, ops).plans[i], ProcessInstallments(Run(s, ops), who, force, now).plans[i]);
      var mine := row.status == Active && Concerns(who, row);
      && (mine && (force || row.nextDue == None || row.nextDue.value <= now) ==> OnePaid(row, next, now))
      && (mine && !force && row.nextDue.Some? && row.nextDue.value > now ==> next == row)
      && (!mine ==> next == row)
      && (row.intervalDays > 0 && !force && Concerns(who, next) && next.status == Active ==>
            next.nextDue.Some? && next.nextDue.value > now)
  {
    RunKeeps(s, ops);
    PassOfRow(Run(s, ops), who, force, now, i);
  }

  // ---- terms and dates of the plans that locking makes

  /** Three intervals make the term, and an interval is never less than a day. */
  lemma {:induction false} ThreeIntervals(days: int)
    ensures IsTerm(days) <==> days == 30 || days == 90 || days == 180
    ensures IsTerm(days) ==> 3 * IntervalDays(days) == days
    ensures IntervalDays(days) >= 1 && (days >= 3 ==> 3 * IntervalDays(days) <= days < 3 * IntervalDays(days) + 3)
    ensures days < 3 ==> IntervalDays(days) == 1
  {
  }

  predicate Termed(row: Installment) {
    (row.lockDays == 30 || row.lockDays == 90 || row.lockDays == 180) && 3 * row.intervalDays == row.lockDays
  }

  predicate AllTermed(plans: seq<Installment>) {
    forall row <- plans :: Termed(row)
  }

  /** What locking adds: nothing, or one plan that starts now, an interval before its first date. */
  lemma {:induction false} LockAddsPlan(s: State, a: Account, amount: real, days: int, threshold: real,
                                        key: Option<KeyId>, now: int)
    ensures var (q, out) := LockContribution(s, a, amount, days, threshold, key, now);
      if out.LockedAs? then
        && out == LockedAs(|s.plans|) && |q.plans| == |s.plans| + 1 && q.plans[..|s.plans|] == s.plans
        && var row := q.plans[|s.plans|];
           && row.account == a && row.total == amount && row.paid == 0 && row.status == Active
           && row.lockDays == days && row.key == key && row.forfeited == 0.0 && Termed(row)
           && row.nextDue == Some(now + 86400 * row.intervalDays)
           && -0.5 <= row.per as real - amount / 3.0 <= 0.5
      else q == s
  {
  }

  lemma {:induction false} StepTermed(s: State, op: Op)
    requires Inv(s) && AllAccounted(s.plans) && AllTermed(s.plans)
    ensures AllTermed(Step(s, op).plans)
  {
    StepAccounts(s, op);
    var q := Step(s, op);
    forall row <- q.plans ensures Termed(row) {
      var i :| 0 <= i < |q.plans| && q.plans[i] == row;
      if i < |s.plans| {
        assert Advances(s.plans[i], q.plans[i]) && s.plans[i] in s.plans;
      } else {
        NewPlansTermed(s, op, i);
      }
    }
  }

  lemma {:induction false} NewPlansTermed(s: State, op: Op, i: nat)
    requires Inv(s) && |s.plans| <= i < |Step(s, op).plans|
    ensures Termed(Step(s, op).plans[i])
  {
    if op.LockOp? { LockAddsPlan(s, op.a, op.amount, op.days, op.threshold, op.key, op.now); }
  }

  /** Over every run, every plan runs for three of its intervals. */
  lemma {:induction false} RunTermed(s: State, ops: seq<Op>)
    requires Inv(s) && AdmissibleRun(s, ops) && AllAccounted(s.plans) && AllTermed(s.plans)
    ensures AllTermed(Run(s, ops).plans)
  {
    if |ops| > 0 {
      var earlier := ops[..|ops| - 1];
      RunTermed(s, earlier);
      RunKeeps(s, earlier);
      RunAccounts(s, earlier);
      StepTermed(Run(s, earlier), ops[|ops| - 1]);
    }
  }

  /** So after every run an unforced pass leaves no plan it concerns due. */
  lemma {:induction false} NothingStaysDue(s: State, ops: seq<Op>, who: Option<Account>, now: int, i: nat)
    requires Inv(s) && AdmissibleRun(s, ops) && AllAccounted(s.plans) && AllTermed(s.plans) && i < |Run(s, ops).plans|
    ensures var next := ProcessInstallments(Run(s, ops), who, false, now).plans[i];
      next.status == Active && Concerns(who, next) ==> next.nextDue.Some? && next.nextDue.value > now
  {
    RunTermed(s, ops);
    assert Run(s, ops).plans[i] in Run(s, ops).plans;
    PassPaysTheDue(s, ops, who, false, now, i);
  }

  /**
    A plan paid on time runs its term: a lock made now and three unforced passes,
    one interval apart each, complete it after lockDays days, with all its principal paid.
   */
  lemma {:induction false} OnTimeCompletes(s: State, i: nat, begin: int, s1: State, s2: State, s3: State)
    requires Inv(s) && i < |s.plans| && Termed(s.plans[i])
    requires s.plans[i].status == Active && s.plans[i].paid == 0
    requires s.plans[i].nextDue == Some(begin + 86400 * s.plans[i].intervalDays)
    requires var step := 86400 * s.plans[i].intervalDays;
      && s1 == Step(s, ProcessOp(None, false, begin + step))
      && s2 == Step(s1, ProcessOp(None, false, begin + 2 * step))
      && s3 == Step(s2, ProcessOp(None, false, begin + 86400 * s.plans[i].lockDays))
    ensures |s1.plans| == |s2.plans| == |s3.plans| == |s.plans|
    ensures s1.plans[i].paid == 1 && s2.plans[i].paid == 2
    ensures s3.plans[i].paid == 3 && s3.plans[i].status == Completed
    ensures PrincipalPaid(s3.plans[i], 3) as real == s.plans[i].total
  {
    var row := s.plans[i];
    var step := 86400 * row.intervalDays;
    assert row in s.plans;
    PassOfRow(s, None, false, begin + step, i);
    StepKeeps(s, ProcessOp(None, false, begin + step));
    PassOfRow(s1, None, false, begin + 2 * step, i);
    StepKeeps(s1, ProcessOp(None, false, begin + 2 * step));
    PassOfRow(s2, None, false, begin + 86400 * row.lockDays, i);
    PrincipalPaysRounding(s3.plans[i]);
  }
}
