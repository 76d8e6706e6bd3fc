/**
  What each billing operation does to the tables of the store, as functions on
  the table contents. The imperative PoolStore is proved to compute these.
 */
module Store {
  import opened Collections
  import opened Money
  import opened Balances
  import opened LockPlans
  import opened FaultLedger

  type TaskId = string

  datatype Task = Task(
    id: TaskId, account: Account, estimate: real, reserved: real, degraded: bool, settled: Option<real>)

  datatype State = State(
    balances: Table, plans: seq<Installment>, fault: seq<Entry>, settings: Settings, tasks: seq<Task>)

  datatype Tier = Reject | Degrade | Normal
  datatype ReserveOutcome = Rejected | DuplicateTask | RecordWithoutDebit | Held(reserved: real)
  datatype FinalizeOutcome = NoSuchTask | CannotSettle | Settled(refund: real)
  datatype LockOutcome = BadTerm | BadAmount | OverLimit | CannotLock | LockedAs(plan: nat)
  datatype ExitOutcome = NotActive | LockShort | Exited(forfeit: real)

  // ---- credits and debits

  function CreditPool(s: State, a: Account, p: Pool, x: real): State {
    if x <= 0.0 then s else s.(balances := Credit(s.balances, a, p, x))
  }

  function SpendFromPools(s: State, a: Account, x: real): State {
    match Spend(s.balances, a, x)
    case Insufficient => s
    case Spent(t, _, _) => s.(balances := t)
  }

  /** The spendable balance as reported, rounded. */
  function TotalSpendable(t: Table, a: Account): int {
    Round(Spendable(t, a))
  }

  // ---- billed tasks

  function ReserveTier(available: real, estimate: real): Tier {
    if estimate <= 0.0 then Normal
    else if available / estimate < 0.5 then Reject
    else if available / estimate < 1.0 then Degrade
    else Normal
  }

  function FindTask(tasks: seq<Task>, id: TaskId): (i: nat)
    ensures i <= |tasks|
    ensures i < |tasks| ==> tasks[i].id == id
    ensures forall k :: 0 <= k < i ==> tasks[k].id != id
  {
    if |tasks| == 0 then 0
    else if tasks[0].id == id then 0
    else 1 + FindTask(tasks[1..], id)
  }

  function AmountToReserve(t: Table, a: Account, estimate: real): real {
    var available := TotalSpendable(t, a) as real;
    if ReserveTier(available, estimate) == Normal then estimate else available
  }

  /** The task record is committed before the debit is attempted. */
  function ReserveForTask(s: State, a: Account, id: TaskId, estimate: real): (State, ReserveOutcome) {
    var tier := ReserveTier(TotalSpendable(s.balances, a) as real, estimate);
    if tier == Reject then (s, Rejected)
    else if FindTask(s.tasks, id) < |s.tasks| then (s, DuplicateTask)
    else
      var reserved := AmountToReserve(s.balances, a, estimate);
      var recorded := s.(tasks := s.tasks + [Task(id, a, estimate, reserved, tier == Degrade, None)]);
      match Spend(s.balances, a, reserved)
      case Insufficient => (recorded, RecordWithoutDebit)
      case Spent(t, _, _) => (recorded.(balances := t), Held(reserved))
  }

  function FinalizeTask(s: State, id: TaskId, actual: real): (State, FinalizeOutcome) {
    var i := FindTask(s.tasks, id);
    if i == |s.tasks| then (s, NoSuchTask)
    else
      var a := s.tasks[i].account;
      var delta := s.tasks[i].reserved - actual;
      var closed := s.(tasks := s.tasks[i := s.tasks[i].(settled := Some(actual))]);
      if delta >= 0.0 then (CreditPool(closed, a, Purchased, delta), Settled(delta))
      else if TotalSpendable(s.balances, a) as real < -delta || Spend(s.balances, a, -delta).Insufficient? then
        (s, CannotSettle)
      else (SpendFromPools(closed, a, -delta), Settled(0.0))
  }

  // ---- lock-ups

  function NewPlan(a: Account, amount: real, days: int, key: Option<KeyId>, now: int): Installment {
    Installment(a, amount, PerInstallment(amount), 0, days, Active,
                Some(now + IntervalDays(days) * SECONDS_PER_DAY), key, IntervalDays(days), 0.0)
  }

  function LockTable(t: Table, a: Account, amount: real): Table
    requires CanDebit(t, a, ContributionUnlocked, amount)
  {
    Credit(Debit(t, a, ContributionUnlocked, amount), a, ContributionLocked, amount)
  }

  function LockContribution(s: State, a: Account, amount: real, days: int, threshold: real, key: Option<KeyId>,
                            now: int)
    : (State, LockOutcome)
  {
    if !IsTerm(days) then (s, BadTerm)
    else if amount <= 0.0 then (s, BadAmount)
    else if amount > Max(0.0, Bal(s.balances, a, ContributionUnlocked) - threshold) then (s, OverLimit)
    else if !CanDebit(s.balances, a, ContributionUnlocked, amount) then (s, CannotLock)
    else
      (s.(balances := LockTable(s.balances, a, amount), plans := s.plans + [NewPlan(a, amount, days, key, now)]),
       LockedAs(|s.plans|))
  }

  predicate Payable(row: Installment, who: Option<Account>, force: bool, now: int) {
    && row.status == Active
    && row.paid < PERIODS
    && (who == None || row.account == who.value)
    && (force || row.nextDue == None || row.nextDue.value <= now)
  }

  function PaidRow(row: Installment, now: int): Installment {
    var paid := row.paid + 1;
    row.(paid := paid,
         status := if paid >= PERIODS then Completed else Active,
         nextDue := if paid >= PERIODS then None else Some(now + row.intervalDays * SECONDS_PER_DAY))
  }

  function PaidTable(t: Table, row: Installment): Table
    requires CanDebit(t, row.account, ContributionLocked, NextPrincipal(row) as real)
  {
    Credit(Debit(t, row.account, ContributionLocked, NextPrincipal(row) as real),
           row.account, Purchased, (NextPrincipal(row) + NextReward(row)) as real)
  }

  datatype Payments = Payments(table: Table, plans: seq<Installment>, rewards: seq<int>)

  /** One row of the payment pass; a row whose debit is refused is passed over. */
  function PayRow(p: Payments, i: nat, who: Option<Account>, force: bool, now: int): Payments
    requires i < |p.plans|
  {
    var row := p.plans[i];
    var due := NextPrincipal(row) as real;
    if Payable(row, who, force, now) && CanDebit(p.table, row.account, ContributionLocked, due) then
      Payments(PaidTable(p.table, row), p.plans[i := PaidRow(row, now)], p.rewards + [NextReward(row)])
    else p
  }

  /** The payment pass over the first `n` rows, in order. */
  function PayRows(p: Payments, n: nat, who: Option<Account>, force: bool, now: int): (r: Payments)
    requires n <= |p.plans|
    ensures |r.plans| == |p.plans|
    ensures forall i :: n <= i < |p.plans| ==> r.plans[i] == p.plans[i]
  {
    if n == 0 then p else PayRow(PayRows(p, n - 1, who, force, now), n - 1, who, force, now)
  }

  /** After the payments, each reward is claimed from the fault pool in turn. */
  function ClaimRewards(s: State, rewards: seq<int>): (r: State)
    ensures r.balances == s.balances && r.plans == s.plans && r.tasks == s.tasks
  {
    if |rewards| == 0 then s
    else
      var earlier := ClaimRewards(s, rewards[..|rewards| - 1]);
      var reward := rewards[|rewards| - 1] as real;
      earlier.(fault := DisburseReward(earlier.fault, reward),
               settings := RewardSettings(earlier.fault, reward, earlier.settings))
  }

  function ProcessInstallments(s: State, who: Option<Account>, force: bool, now: int): (r: State)
    ensures |r.plans| == |s.plans| && r.tasks == s.tasks
  {
    var done := PayRows(Payments(s.balances, s.plans, []), |s.plans|, who, force, now);
    ClaimRewards(s.(balances := done.table, plans := done.plans), done.rewards)
  }

  /** What a key failure takes from the locked pool: a short pool is emptied instead. */
  function ForfeitedPrincipal(t: Table, row: Installment): (taken: real)
    ensures taken > 0.0 ==> CanDebit(t, row.account, ContributionLocked, taken)
  {
    var due := UnpaidPrincipal(row) as real;
    if due <= 0.0 || CanDebit(t, row.account, ContributionLocked, due) then due
    else Max(0.0, Bal(t, row.account, ContributionLocked))
  }

  /** What is recorded as forfeited: in full, unless the pool was short and not empty. */
  function ForfeitTotal(t: Table, row: Installment): real {
    var taken := ForfeitedPrincipal(t, row);
    if taken == UnpaidPrincipal(row) as real || taken <= 0.0 then (UnpaidPrincipal(row) + UnpaidReward(row)) as real
    else Round(taken + UnpaidReward(row) as real) as real
  }

  function ForfeitTable(t: Table, row: Installment): Table {
    var taken := ForfeitedPrincipal(t, row);
    if taken > 0.0 then Debit(t, row.account, ContributionLocked, taken) else t
  }

  function ForfeitRow(t: Table, row: Installment): Installment {
    row.(status := ForfeitedKeyFailure, forfeited := ForfeitTotal(t, row), nextDue := None)
  }

  /** A key failure ends an active plan and books what it took, with the unpaid reward, to the fault pool. */
  function ForfeitPlan(s: State, i: nat): (State, ExitOutcome) {
    if i >= |s.plans| || s.plans[i].status != Active then (s, NotActive)
    else
      var row := s.plans[i];
      var forfeit := ForfeitTotal(s.balances, row);
      (s.(balances := ForfeitTable(s.balances, row),
          plans := s.plans[i := ForfeitRow(s.balances, row)],
          fault := CreditEntry(s.fault, forfeit)),
       Exited(forfeit))
  }

  /** Every active plan bound to the failed key among the first `n` rows. */
  function ForfeitKey(s: State, key: KeyId, n: nat): (r: State)
    requires n <= |s.plans|
    ensures |r.plans| == |s.plans|
    ensures forall i :: n <= i < |s.plans| ==> r.plans[i] == s.plans[i]
  {
    if n == 0 then s
    else
      var earlier := ForfeitKey(s, key, n - 1);
      if s.plans[n - 1].status == Active && s.plans[n - 1].key == Some(key) then ForfeitPlan(earlier, n - 1).0
      else earlier
  }

  function UnlockForfeit(row: Installment): int {
    UnpaidReward(row) + Penalty(row)
  }

  function UnlockTable(t: Table, row: Installment): Table
    requires UnpaidPrincipal(row) > 0 ==> CanDebit(t, row.account, ContributionLocked, UnpaidPrincipal(row) as real)
  {
    var due := UnpaidPrincipal(row) as real;
    var u := if due > 0.0 then Debit(t, row.account, ContributionLocked, due) else t;
    if ReturnedPrincipal(row) > 0
        then Credit(u, row.account, ContributionUnlocked, ReturnedPrincipal(row) as real) else u
  }

  function UnlockRow(row: Installment): Installment {
    row.(status := EarlyUnlocked, forfeited := UnlockForfeit(row) as real, nextDue := None)
  }

  /** Leaving early returns the unpaid principal less a penalty; a short locked pool refuses. */
  function EarlyUnlock(s: State, a: Account, i: nat): (State, ExitOutcome) {
    if i >= |s.plans| || s.plans[i].account != a || s.plans[i].status != Active then (s, NotActive)
    else
      var row := s.plans[i];
      var due := UnpaidPrincipal(row) as real;
      if due > 0.0 && !CanDebit(s.balances, a, ContributionLocked, due) then (s, LockShort)
      else
        (s.(balances := UnlockTable(s.balances, row),
            plans := s.plans[i := UnlockRow(row)],
            fault := CreditEntry(s.fault, UnlockForfeit(row) as real)),
         Exited(UnlockForfeit(row) as real))
  }

  // ---- direct use of the fault pool

  function CreditFaultPool(s: State, amount: real): State {
    var ledger := CreditEntry(s.fault, amount);
    s.(fault := ledger, settings := HandleDepletion(ledger, s.settings))
  }

  function DisburseFromFaultPool(s: State, amount: real): State {
    var ledger := DebitEntry(s.fault, amount);
    s.(fault := ledger, settings := HandleDepletion(ledger, s.settings))
  }
}
