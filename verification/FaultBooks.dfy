/**
  The fault pool on arbitrary amounts: what every operation adds to the sum of its
  entries, and how much key failures book that they never took from anyone.
 */
module FaultBooks {
  import opened Collections
  import opened Money
  import opened Balances
  import opened LockPlans
  import opened FaultLedger
  import opened Store
  import opened StoreLaws
  import opened DriftLaws

  // ---- one key failure

  /** What the forfeiture of a plan books beyond the principal it takes and the reward forfeited. */
  function Overbooked(t: Table, row: Installment): real {
    var avail := Max(0.0, Bal(t, row.account, ContributionLocked));
    var (due, reward) := (UnpaidPrincipal(row) as real, UnpaidReward(row) as real);
    if due <= avail then 0.0
    else if avail == 0.0 then due
    else Round(avail + reward) as real - (avail + reward)
  }

  lemma {:induction false} BookedIs(t: Table, row: Installment)
    ensures ForfeitTotal(t, row) == ForfeitedPrincipal(t, row) + UnpaidReward(row) as real + Overbooked(t, row)
    ensures ForfeitTotal(t, row) >= 0.0
  {
    RoundWhole(0);
    RoundMonotone(0.0, Max(0.0, Bal(t, row.account, ContributionLocked)) + UnpaidReward(row) as real);
  }

  /** More than rounding is overbooked exactly when principal is unpaid and the locked pool is empty. */
  lemma {:induction false} OverbookedIff(t: Table, row: Installment)
    ensures Overbooked(t, row) >= -0.5
    ensures Overbooked(t, row) > 0.5 <==> UnpaidPrincipal(row) > 0 && Bal(t, row.account, ContributionLocked) <= 0.0
    ensures Overbooked(t, row) > 0.5 ==>
              ForfeitedPrincipal(t, row) <= 0.0 && Overbooked(t, row) == UnpaidPrincipal(row) as real
    ensures DriftLaws.Shortfall(t, row) == 0.0 ==> Overbooked(t, row) == 0.0
  {
  }

  /** Principal taken, rewards forfeited, and what is booked beyond them. */
  datatype Books = Books(taken: real, rewards: int, overbooked: real)

  predicate Bound(row: Installment, key: KeyId) {
    row.status == Active && row.key == Some(key)
  }

  /** What a key failure takes and books among the first n rows. */
  function KeyBooks(s: State, key: KeyId, n: nat): Books
    requires n <= |s.plans|
  {
    if n == 0 then Books(0.0, 0, 0.0)
    else
      var (b, row) := (KeyBooks(s, key, n - 1), s.plans[n - 1]);
      var t := ForfeitKey(s, key, n - 1).balances;
      if Bound(row, key) then
        Books(b.taken + ForfeitedPrincipal(t, row), b.rewards + UnpaidReward(row), b.overbooked + Overbooked(t, row))
      else b
  }

  function Sum3(b: Books): real {
    b.taken + b.rewards as real + b.overbooked
  }

  lemma {:induction false} BooksNext(s: State, key: KeyId, m: nat, n: nat, e: State)
    requires m < n == m + 1 <= |s.plans| && e == ForfeitKey(s, key, m)
    ensures var (b, row) := (KeyBooks(s, key, m), s.plans[m]);
      KeyBooks(s, key, n) == if Bound(row, key) then
        Books(b.taken + ForfeitedPrincipal(e.balances, row), b.rewards + UnpaidReward(row),
              b.overbooked + Overbooked(e.balances, row)) else b
  {
  }

  lemma {:induction false} CreditRaw(ledger: seq<Entry>, amount: real)
    ensures Raw(CreditEntry(ledger, amount)) == Raw(ledger) + Max(0.0, amount)
  {
    if amount > 0.0 { RawAppend(ledger, Entry(true, amount, Round(Balance(ledger) as real + amount))); }
  }

  lemma {:induction false} ForfeitRaw(s: State, i: nat, q: State)
    requires i < |s.plans| && s.plans[i].status == Active && q == ForfeitPlan(s, i).0
    ensures var row := s.plans[i];
      Raw(q.fault) == Raw(s.fault) + ForfeitedPrincipal(s.balances, row) + UnpaidReward(row) as real
                      + Overbooked(s.balances, row)
  {
    BookedIs(s.balances, s.plans[i]);
    CreditRaw(s.fault, ForfeitTotal(s.balances, s.plans[i]));
  }

  /** For every state: a key failure books what it takes, the rewards forfeited, and what it overbooks. */
  lemma {:induction false} KeyFailureBooks(s: State, key: KeyId, n: nat, q: State)
    requires n <= |s.plans| && q == ForfeitKey(s, key, n)
    ensures Raw(q.fault) == Raw(s.fault) + Sum3(KeyBooks(s, key, n))
    decreases n
  {
    if n > 0 {
      var m := n - 1;
      var e := ForfeitKey(s, key, m);
      ForfeitKeyNext(s, key, m, n, e, q);
      KeyFailureBooks(s, key, m, e);
      BooksNext(s, key, m, n, e);
      if Bound(s.plans[m], key) { ForfeitRaw(e, m, q); }
    }
  }

  // ---- what is taken is what the accounts lose

  function TakenOver(s: State, key: KeyId, n: nat, accounts: seq<Account>): real
    requires n <= |s.plans|
  {
    if |accounts| == 0 then 0.0
    else TakenOver(s, key, n, accounts[..|accounts| - 1]) + KeyTaken(s, key, n, accounts[|accounts| - 1])
  }

  lemma {:induction false} TakenOverNext(s: State, key: KeyId, m: nat, n: nat, accounts: seq<Account>, e: State)
    requires m < n == m + 1 <= |s.plans| && e == ForfeitKey(s, key, m) && Distinct(accounts)
    ensures var row := s.plans[m];
      TakenOver(s, key, n, accounts)
      == TakenOver(s, key, m, accounts) + if Bound(row, key) && row.account in accounts
          then ForfeitedPrincipal(e.balances, row) else 0.0
  {
    if |accounts| > 0 {
      var init := accounts[..|accounts| - 1];
      assert accounts == init + [accounts[|accounts| - 1]];
      TakenOverNext(s, key, m, n, init, e);
      TakenNext(s, key, m, n, accounts[|accounts| - 1], e);
    }
  }

  lemma {:induction false} NothingTaken(s: State, key: KeyId, accounts: seq<Account>)
    ensures TakenOver(s, key, 0, accounts) == 0.0
  {
    if |accounts| > 0 { NothingTaken(s, key, accounts[..|accounts| - 1]); }
  }

  /** The principal taken is what the accounts' locked pools lose to the key failure. */
  lemma {:induction false} TakenIsLost(s: State, key: KeyId, n: nat, accounts: seq<Account>)
    requires n <= |s.plans| && Distinct(accounts) && forall row <- s.plans :: row.account in accounts
    ensures KeyBooks(s, key, n).taken == TakenOver(s, key, n, accounts)
    decreases n
  {
    if n == 0 {
      NothingTaken(s, key, accounts);
    } else {
      var m := n - 1;
      var e := ForfeitKey(s, key, m);
      assert s.plans[m] in s.plans;
      TakenIsLost(s, key, m, accounts);
      BooksNext(s, key, m, n, e);
      TakenOverNext(s, key, m, n, accounts, e);
    }
  }

  // ---- every operation, every run

  /** The sum of the entries after rewards; each is paid out of the balance reported for the sum it finds. */
  function RawAfter(raw: real, rewards: seq<int>): real {
    if |rewards| == 0 then raw
    else
      var found := RawAfter(raw, rewards[..|rewards| - 1]);
      var (reward, balance) := (rewards[|rewards| - 1], Round(found));
      if reward <= 0 then found
      else if reward <= balance then found - reward as real
      else found - balance as real + (reward - balance) as real
  }

  lemma {:induction false} RewardRaw(ledger: seq<Entry>, reward: int)
    requires Solvent(ledger)
    ensures Raw(DisburseReward(ledger, reward as real))
            == if reward <= 0 then Raw(ledger)
               else if reward <= Balance(ledger) then Raw(ledger) - reward as real
               else Raw(ledger) - Balance(ledger) as real + (reward - Balance(ledger)) as real
  {
    if reward > 0 {
      SolventBalance(ledger);
      var b := Balance(ledger);
      var disbursed := Min(reward as real, b as real);
      var paid := if disbursed > 0.0 then DebitEntry(ledger, disbursed) else ledger;
      DebitKeepsSolvent(ledger, disbursed);
      var rest := if reward <= b then 0 else reward - b;
      RoundWhole(rest);
      assert reward as real - disbursed == rest as real;
      CreditRaw(paid, rest as real);
    }
  }

  lemma {:induction false} ClaimsRaw(s: State, rewards: seq<int>)
    requires Solvent(s.fault)
    ensures Solvent(ClaimRewards(s, rewards).fault)
    ensures Raw(ClaimRewards(s, rewards).fault) == RawAfter(Raw(s.fault), rewards)
  {
    ClaimRewardsLedger(s, rewards);
    if |rewards| > 0 {
      var init := rewards[..|rewards| - 1];
      ClaimsRaw(s, init);
      RewardRaw(ClaimRewards(s, init).fault, rewards[|rewards| - 1]);
    }
  }

  /** What an operation adds to the sum of the entries, as far as it was taken, forfeited or paid. */
  function BackedFlow(s: State, op: Op): real {
    match op
    case ProcessOp(who, force, now) =>
      RawAfter(Raw(s.fault), PayRows(Payments(s.balances, s.plans, []), |s.plans|, who, force, now).rewards)
      - Raw(s.fault)
    case EarlyUnlockOp(a, plan) =>
      if EarlyUnlock(s, a, plan).1.Exited? then UnlockForfeit(s.plans[plan]) as real else 0.0
    case KeyFailureOp(failed) =>
      var b := KeyBooks(s, failed, |s.plans|);
      b.taken + b.rewards as real
    case FaultCreditOp(amount) => Max(0.0, amount)
    case FaultDebitOp(amount) => -Max(0.0, Min(amount, Balance(s.fault) as real))
    case _ => 0.0
  }

  /** What it adds beyond that. */
  function OverbookedBy(s: State, op: Op): real {
    if op.KeyFailureOp? then KeyBooks(s, op.failed, |s.plans|).overbooked else 0.0
  }

  lemma {:induction false} UnlockRaw(s: State, b: Account, i: nat, q: State)
    requires Sound(s) && q == EarlyUnlock(s, b, i).0
    ensures Raw(q.fault) == Raw(s.fault) + BackedFlow(s, EarlyUnlockOp(b, i))
  {
    if EarlyUnlock(s, b, i).1.Exited? {
      assert s.plans[i] in s.plans;
      EarlyUnlockSplits(s.plans[i]);
      CreditRaw(s.fault, UnlockForfeit(s.plans[i]) as real);
    }
  }

  lemma {:induction false} PassRaw(s: State, who: Option<Account>, force: bool, now: int, q: State)
    requires Solvent(s.fault) && q == ProcessInstallments(s, who, force, now)
    ensures Raw(q.fault) == Raw(s.fault) + BackedFlow(s, ProcessOp(who, force, now))
  {
    var done := PayRows(Payments(s.balances, s.plans, []), |s.plans|, who, force, now);
    ClaimsRaw(s.(balances := done.table, plans := done.plans), done.rewards);
  }

  lemma {:induction false} StepRaw(s: State, op: Op, q: State)
    requires Sound(s) && Solvent(s.fault) && q == Step(s, op)
    ensures Raw(q.fault) == Raw(s.fault) + BackedFlow(s, op) + OverbookedBy(s, op)
  {
    match op
    case ProcessOp(who, force, now) => PassRaw(s, who, force, now, q);
    case EarlyUnlockOp(b, plan) => UnlockRaw(s, b, plan, q);
    case KeyFailureOp(failed) => KeyFailureBooks(s, failed, |s.plans|, q);
    case FaultCreditOp(amount) => CreditRaw(s.fault, amount);
    case FaultDebitOp(amount) => DebitKeepsSolvent(s.fault, amount);
    case _ =>
  }

  function BackedFlows(s: State, ops: seq<Op>): real {
    if |ops| == 0 then 0.0
    else BackedFlows(s, ops[..|ops| - 1]) + BackedFlow(Run(s, ops[..|ops| - 1]), ops[|ops| - 1])
  }

  function Overbookings(s: State, ops: seq<Op>): real {
    if |ops| == 0 then 0.0
    else Overbookings(s, ops[..|ops| - 1]) + OverbookedBy(Run(s, ops[..|ops| - 1]), ops[|ops| - 1])
  }

  /**
    Over every run, whatever the amounts: the entries of the fault pool add up to
    what was taken, forfeited and paid, plus what key failures booked without taking it.
   */
  lemma {:induction false} RunRaw(s: State, ops: seq<Op>)
    requires Sound(s) && Solvent(s.fault)
    ensures Raw(Run(s, ops).fault) == Raw(s.fault) + BackedFlows(s, ops) + Overbookings(s, ops)
  {
    if |ops| > 0 {
      var earlier := ops[..|ops| - 1];
      RunRaw(s, earlier);
      RunSound(s, earlier);
      FaultPoolStaysSolvent(s, earlier);
      StepRaw(Run(s, earlier), ops[|ops| - 1], Run(s, ops));
    }
  }

  lemma {:induction false} KeyBooksWhole(s: State, key: KeyId, n: nat)
    requires n <= |s.plans| && LockInv(s.balances, s.plans)
    ensures KeyBooks(s, key, n).overbooked == 0.0
    decreases n
  {
    if n > 0 {
      var m := n - 1;
      var e := ForfeitKey(s, key, m);
      KeyBooksWhole(s, key, m);
      BooksNext(s, key, m, n, e);
      ForfeitKeyInv(s, key, m, e);
      if Bound(s.plans[m], key) {
        LockedCovers(e.balances, e.plans, m);
        CoveredIsBooked(e.balances, e.plans[m]);
      }
    }
  }

  lemma {:induction false} CoveredIsBooked(t: Table, row: Installment)
    requires CanDebit(t, row.account, ContributionLocked, UnpaidPrincipal(row) as real)
    ensures Overbooked(t, row) == 0.0
  {
  }

  /** On whole amounts nothing is ever booked without being taken. */
  lemma {:induction false} WholeAmountsNeverOverbook(s: State, ops: seq<Op>)
    requires Inv(s) && AdmissibleRun(s, ops)
    ensures Overbookings(s, ops) == 0.0
  {
    if |ops| > 0 {
      var earlier := ops[..|ops| - 1];
      var op := ops[|ops| - 1];
      WholeAmountsNeverOverbook(s, earlier);
      RunKeeps(s, earlier);
      if op.KeyFailureOp? { KeyBooksWhole(Run(s, earlier), op.failed, |Run(s, earlier).plans|); }
    }
  }

  // ---- a low pool is a paused pool

  /** While the balance is below the threshold, the public pool is paused. */
  predicate Alarmed(ledger: seq<Entry>, c: Settings) {
    Balance(ledger) as real < c.threshold ==> c.publicPoolPaused
  }

  /** A low balance pauses the public pool and raises the take by 0.02, to 0.25 at most; otherwise nothing happens. */
  lemma {:induction false} DepletionIs(ledger: seq<Entry>, c: Settings)
    ensures var (d, low) := (HandleDepletion(ledger, c), Balance(ledger) as real < c.threshold);
      && d.threshold == c.threshold
      && (low ==> d.publicPoolPaused)
      && (low && OnGrid(c.takeRate) ==> d.takeRate == Min(2500.0, c.takeRate + 200.0))
      && (!low ==> d == c)
  {
    if OnGrid(c.takeRate) {
      RoundWhole(200);
      GridSum(c.takeRate, 200.0);
      RoundGrid(c.takeRate + 200.0);
    }
  }

  lemma {:induction false} CreditRaises(ledger: seq<Entry>, amount: real)
    ensures Balance(CreditEntry(ledger, amount)) >= Balance(ledger)
  {
    CreditRaw(ledger, amount);
    RoundMonotone(Raw(ledger), Raw(CreditEntry(ledger, amount)));
  }

  lemma {:induction false} RewardAlarms(ledger: seq<Entry>, reward: real, c: Settings)
    requires Alarmed(ledger, c)
    ensures Alarmed(DisburseReward(ledger, reward), RewardSettings(ledger, reward, c))
  {
    if reward > 0.0 {
      var disbursed := Min(reward, Balance(ledger) as real);
      var paid := if disbursed > 0.0 then DebitEntry(ledger, disbursed) else ledger;
      CreditRaises(paid, Round(reward - disbursed) as real);
    }
  }

  /**
    A reward checks for depletion after each entry it makes: once when the pool can
    pay it or is empty, and twice when it pays part; a low pool ends up paused.
   */
  lemma {:induction false} RewardDepletes(ledger: seq<Entry>, reward: int, c: Settings, b: int)
    requires Solvent(ledger) && reward > 0 && b == Balance(ledger)
    ensures var (after, d) := (DisburseReward(ledger, reward as real), RewardSettings(ledger, reward as real, c));
      && (Balance(after) as real < c.threshold ==> d.publicPoolPaused)
      && (reward <= b || b == 0 ==> d == HandleDepletion(after, c))
      && (0 < b < reward ==>
            d == HandleDepletion(after, HandleDepletion(DebitEntry(ledger, b as real), c)))
  {
    SolventBalance(ledger);
    var rest := if reward <= b then 0 else reward - b;
    RoundWhole(rest);
    assert reward as real - Min(reward as real, b as real) == rest as real;
  }

  lemma {:induction false} ClaimsAlarm(s: State, rewards: seq<int>, q: State)
    requires Alarmed(s.fault, s.settings) && q == ClaimRewards(s, rewards)
    ensures Alarmed(q.fault, q.settings)
  {
    if |rewards| > 0 {
      var init := rewards[..|rewards| - 1];
      var e := ClaimRewards(s, init);
      ClaimsAlarm(s, init, e);
      RewardAlarms(e.fault, rewards[|rewards| - 1] as real, e.settings);
    }
  }

  lemma {:induction false} KeyFailureRaises(s: State, key: KeyId, n: nat, q: State)
    requires n <= |s.plans| && q == ForfeitKey(s, key, n)
    ensures Balance(q.fault) >= Balance(s.fault) && q.settings == s.settings
    decreases n
  {
    if n > 0 {
      var m := n - 1;
      var e := ForfeitKey(s, key, m);
      ForfeitKeyNext(s, key, m, n, e, q);
      KeyFailureRaises(s, key, m, e);
      CreditRaises(e.fault, ForfeitTotal(e.balances, s.plans[m]));
    }
  }

  lemma {:induction false} StepAlarms(s: State, op: Op, q: State)
    requires Alarmed(s.fault, s.settings) && q == Step(s, op)
    ensures Alarmed(q.fault, q.settings)
    ensures op.FaultCreditOp? || op.FaultDebitOp? ==> q.settings == HandleDepletion(q.fault, s.settings)
  {
    match op
    case ProcessOp(who, force, now) =>
      var done := PayRows(Payments(s.balances, s.plans, []), |s.plans|, who, force, now);
      ClaimsAlarm(s.(balances := done.table, plans := done.plans), done.rewards, q);
    case EarlyUnlockOp(b, plan) =>
      if EarlyUnlock(s, b, plan).1.Exited? { CreditRaises(s.fault, UnlockForfeit(s.plans[plan]) as real); }
    case KeyFailureOp(failed) => KeyFailureRaises(s, failed, |s.plans|, q);
    case FaultCreditOp(amount) =>
    case FaultDebitOp(amount) =>
    case _ =>
  }

  /**
    Over every run, whatever the amounts: once a balance below the threshold has
    paused the public pool, or while there has been none, it is paused whenever the
    balance is below the threshold.
   */
  lemma {:induction false} LowMeansPaused(s: State, ops: seq<Op>)
    requires Alarmed(s.fault, s.settings)
    ensures Alarmed(Run(s, ops).fault, Run(s, ops).settings)
  {
    if |ops| > 0 {
      LowMeansPaused(s, ops[..|ops| - 1]);
      StepAlarms(Run(s, ops[..|ops| - 1]), ops[|ops| - 1], Run(s, ops));
    }
  }

  // ---- an empty pool and a plan that fails

  /** Three locks of one account, the last bound to a key, after k payments of each. */
  predicate Trio(s: State, a: Account, key: KeyId, k: nat) {
    && s.plans == [RunningPlan(a, 0.6, 0, k), RunningPlan(a, 0.6, 0, k), RunningPlan(a, 0.8, 0, k).(key := Some(key))]
    && (a, ContributionLocked) in s.balances && s.balances[(a, ContributionLocked)] == 2.0
    && s.fault == []
  }

  lemma {:induction false} TrioRounds()
    ensures PerInstallment(0.6) == 0 && PerInstallment(0.8) == 0
    ensures Round(0.6) == 1 && Round(0.8) == 1
    ensures Round(RewardBase(0.6, 30)) == 0 && Round(RewardBase(0.8, 30)) == 0
  {
    RoundIsUnique(0.2, 0);
    RoundIsUnique(0.8 / 3.0, 0);
    RoundIsUnique(0.6, 1);
    RoundIsUnique(0.8, 1);
    RoundIsUnique(0.012, 0);
    RoundIsUnique(0.016, 0);
  }

  /** A lock too small for thirds and for a reward pays nothing twice, and then a unit. */
  lemma {:induction false} TrioOwes(row: Installment)
    requires row.paid < PERIODS && row.per == 0 && Round(row.total) == 1
    requires Round(RewardBase(row.total, row.lockDays)) == 0
    ensures NextPrincipal(row) == (if row.paid == 2 then 1 else 0) && NextReward(row) == 0
    ensures row.paid == 2 && row.total > 0.0 ==> UnpaidPrincipal(row) == 1 && UnpaidReward(row) == 0
  {
    AccruedRewards(0);
    SmallTimes(0);
    RoundWhole(0);
  }

  function LockKeyed(a: Account, amount: real, key: Option<KeyId>): Op {
    LockOp(a, amount, 30, 0.0, key, 0)
  }

  /** Locking 0.6, 0.6 and 0.8 units of a credit of 2, from the empty store. */
  lemma {:induction false} TrioStarts(s: State, a: Account, key: KeyId, s1: State, s2: State, s3: State)
    requires s.balances == map[] && s.plans == [] && s.fault == []
    requires s1 == Step(s, CreditOp(a, ContributionUnlocked, 2.0))
    requires s2 == Step(s1, LockKeyed(a, 0.6, None)) && s3 == Step(s2, LockKeyed(a, 0.6, None))
    ensures Trio(Step(s3, LockKeyed(a, 0.8, Some(key))), a, key, 0)
  {
    TrioRounds();
    assert Bal(s2.balances, a, ContributionUnlocked) == 1.4;
    assert s2.plans == [RunningPlan(a, 0.6, 0, 0)];
    assert Bal(s3.balances, a, ContributionUnlocked) == 0.8;
    assert s3.plans == [RunningPlan(a, 0.6, 0, 0), RunningPlan(a, 0.6, 0, 0)];
  }

  lemma {:induction false} NoRewards(s: State)
    ensures ClaimRewards(s, [0] + [0]) == s && ClaimRewards(s, [0] + [0] + [0]) == s
  {
    assert ([0] + [0] + [0])[..2] == [0] + [0] && ([0] + [0])[..1] == [0] && [0][..0] == [];
    assert ClaimRewards(s, []) == s;
    assert ClaimRewards(s, [0]) == s;
  }

  /** A row that a forced pass pays what it owes, if the pool holds that, and no reward. */
  predicate Owing(row: Installment, a: Account, owed: int) {
    && row.status == Active && row.paid < PERIODS && row.account == a
    && NextPrincipal(row) == owed >= 0 && NextReward(row) == 0
  }

  predicate Holds(t: Table, a: Account, locked: real) {
    (a, ContributionLocked) in t && t[(a, ContributionLocked)] == locked
  }

  lemma {:induction false} RowPays(p: Payments, i: nat, owed: int, q: Payments, a: Account, locked: real)
    requires i < |p.plans| && q == PayRow(p, i, None, true, 0)
    requires Owing(p.plans[i], a, owed) && Holds(p.table, a, locked)
    ensures if owed as real <= locked then
        && q.plans == p.plans[i := PaidRow(p.plans[i], 0)] && q.rewards == p.rewards + [0]
        && Holds(q.table, a, locked - owed as real)
      else q == p
  {
  }

  /** Three rows of one account, the first two of which the pool covers. */
  lemma {:induction false} ThreePay(p: Payments, a: Account, locked: real, o0: int, o1: int, o2: int, q: Payments)
    requires |p.plans| == 3 && p.rewards == [] && q == PayRows(p, 3, None, true, 0)
    requires Owing(p.plans[0], a, o0) && Owing(p.plans[1], a, o1) && Owing(p.plans[2], a, o2)
    requires Holds(p.table, a, locked) && (o0 + o1) as real <= locked
    ensures var third := (o0 + o1 + o2) as real <= locked;
      && q.plans == [PaidRow(p.plans[0], 0), PaidRow(p.plans[1], 0),
                     if third then PaidRow(p.plans[2], 0) else p.plans[2]]
      && q.rewards == (if third then [0] + [0] + [0] else [0] + [0])
      && Holds(q.table, a, locked - (if third then o0 + o1 + o2 else o0 + o1) as real)
  {
    var p0, p1, p2 := PayRows(p, 0, None, true, 0), PayRows(p, 1, None, true, 0), PayRows(p, 2, None, true, 0);
    PassNext(p, 0, 1, None, true, 0, p0, p1);
    PassNext(p, 1, 2, None, true, 0, p1, p2);
    PassNext(p, 2, 3, None, true, 0, p2, q);
    assert p0 == p;
    RowPays(p, 0, o0, p1, a, locked);
    RowPays(p1, 1, o1, p2, a, locked - o0 as real);
    RowPays(p2, 2, o2, q, a, locked - o0 as real - o1 as real);
  }

  lemma {:induction false} TrioPass(s: State, a: Account, key: KeyId, k: nat, q: State)
    requires Trio(s, a, key, k) && k < 2 && q == Step(s, FORCED_PASS)
    ensures Trio(q, a, key, k + 1)
  {
    TrioRounds();
    var p := Payments(s.balances, s.plans, []);
    TrioOwes(s.plans[0]);
    TrioOwes(s.plans[1]);
    TrioOwes(s.plans[2]);
    var done := PayRows(p, 3, None, true, 0);
    ThreePay(p, a, 2.0, 0, 0, 0, done);
    NoRewards(s.(balances := done.table, plans := done.plans));
  }

  /** Two locks have taken a unit each, and nothing is left for the third. */
  predicate Emptied(s: State, a: Account, key: KeyId) {
    && |s.plans| == 3 && s.plans[0].status == Completed && s.plans[1].status == Completed
    && s.plans[2] == RunningPlan(a, 0.8, 0, 2).(key := Some(key))
    && Bal(s.balances, a, ContributionLocked) == 0.0
    && s.fault == []
  }

  lemma {:induction false} TrioEmpties(s: State, a: Account, key: KeyId, q: State)
    requires Trio(s, a, key, 2) && q == Step(s, FORCED_PASS)
    ensures Emptied(q, a, key)
  {
    TrioRounds();
    var p := Payments(s.balances, s.plans, []);
    TrioOwes(s.plans[0]);
    TrioOwes(s.plans[1]);
    TrioOwes(s.plans[2]);
    var done := PayRows(p, 3, None, true, 0);
    ThreePay(p, a, 2.0, 1, 1, 1, done);
    NoRewards(s.(balances := done.table, plans := done.plans));
  }

  lemma {:induction false} EmptyPoolIsBooked(s: State, a: Account, key: KeyId, q: State)
    requires Emptied(s, a, key) && q == Step(s, KeyFailureOp(key))
    ensures Raw(q.fault) == 1.0 && KeyBooks(s, key, 3) == Books(0.0, 0, 1.0)
    ensures q.balances == s.balances && q.plans[2].status == ForfeitedKeyFailure && q.plans[2].forfeited == 1.0
  {
    TrioRounds();
    var row := s.plans[2];
    TrioOwes(row);
    assert ForfeitKey(s, key, 0) == s && KeyBooks(s, key, 0) == Books(0.0, 0, 0.0);
    assert ForfeitKey(s, key, 1) == s && KeyBooks(s, key, 1) == Books(0.0, 0, 0.0);
    assert ForfeitKey(s, key, 2) == s && KeyBooks(s, key, 2) == Books(0.0, 0, 0.0);
    assert ForfeitedPrincipal(s.balances, row) == 0.0 && Overbooked(s.balances, row) == 1.0;
    BookedIs(s.balances, row);
    ForfeitKeyNext(s, key, 2, 3, s, q);
    BooksNext(s, key, 2, 3, s);
    KeyFailureBooks(s, key, 3, q);
  }

  /**
    From such locks, on any run that passes three times: the locks of 0.6 units
    have emptied the pool, and the failure of the key behind the lock of 0.8 units
    books a unit to the fault pool that no balance lost.
   */
  lemma {:induction false} KeyFailureBooksUnbacked(s: State, a: Account, key: KeyId, s1: State, s2: State, s3: State,
                                                   q: State)
    requires Trio(s, a, key, 0) && s1 == Step(s, FORCED_PASS) && s2 == Step(s1, FORCED_PASS)
    requires s3 == Step(s2, FORCED_PASS) && q == Step(s3, KeyFailureOp(key))
    ensures Raw(s3.fault) == 0.0 && Bal(s3.balances, a, ContributionLocked) == 0.0 && q.balances == s3.balances
    ensures Raw(q.fault) == 1.0 && OverbookedBy(s3, KeyFailureOp(key)) == 1.0
  {
    TrioPass(s, a, key, 0, s1);
    TrioPass(s1, a, key, 1, s2);
    TrioEmpties(s2, a, key, s3);
    EmptyPoolIsBooked(s3, a, key, q);
  }
}
