/**
  The store itself: tables updated in place, one method per operation. Each
  method is proved to compute the corresponding function on the table contents;
  an operation that raises inside a transaction restores the tables it changed.
 */
module PoolStore {
  import opened Collections
  import opened Money
  import opened Balances
  import opened LockPlans
  import opened FaultLedger
  import opened Store

  class PoolStore {
    var balances: Table
    var installments: seq<Installment>
    var faultLedger: seq<Entry>
    var settings: Settings
    var tasks: seq<Task>

    ghost function Contents(): State
      reads this
    {
      State(balances, installments, faultLedger, settings, tasks)
    }

    constructor (settings: Settings)
      ensures Contents() == State(map[], [], [], settings, [])
    {
      balances, installments, faultLedger, tasks := map[], [], [], [];
      this.settings := settings;
    }

    method AtomicDebitPool(a: Account, p: Pool, x: real) returns (ok: bool)
      modifies this`balances
      ensures ok == CanDebit(old(balances), a, p, x)
      ensures balances == if ok then Debit(old(balances), a, p, x) else old(balances)
    {
      ok := (a, p) in balances && balances[(a, p)] >= x;
      if ok {
        balances := balances[(a, p) := balances[(a, p)] - x];
      }
    }

    method CreditPool(a: Account, p: Pool, x: real)
      modifies this`balances
      ensures Contents() == Store.CreditPool(old(Contents()), a, p, x)
    {
      if x <= 0.0 {
        return;
      }
      var before := if (a, p) in balances then balances[(a, p)] else 0.0;
      balances := balances[(a, p) := before + x];
    }

    /** Debits the pools in order; a second look at a refused pool sees the same balance. */
    method SpendFromPools(a: Account, amount: real) returns (outcome: Outcome)
      modifies this`balances
      ensures outcome == Spend(old(balances), a, amount)
      ensures Contents() == Store.SpendFromPools(old(Contents()), a, amount)
    {
      if amount <= 0.0 {
        return Spent(balances, map[], 0);
      }
      var committed := balances;
      var remaining := Round(amount);
      var breakdown: map<Pool, int> := map[];
      var i := 0;
      while i < |SPEND_ORDER| && remaining > 0
        invariant 0 <= i <= |SPEND_ORDER|
        invariant SpendOver(balances, a, SPEND_ORDER[i..], remaining, breakdown)
                  == SpendOver(committed, a, SPEND_ORDER, Round(amount), map[])
      {
        var pool := SPEND_ORDER[i];
        assert SPEND_ORDER[i..][1..] == SPEND_ORDER[i + 1..];
        i := i + 1;
        var avail := if (a, pool) in balances then balances[(a, pool)] else 0.0;
        if avail > 0.0 {
          var take := Round(Min(avail, remaining as real));
          var paid := AtomicDebitPool(a, pool, take as real);
          if !paid {
            avail := if (a, pool) in balances then balances[(a, pool)] else 0.0;
            if avail <= 0.0 {
              continue;
            }
            take := Round(Min(avail, remaining as real));
            paid := AtomicDebitPool(a, pool, take as real);
            if !paid {
              balances := committed;
              return Insufficient;
            }
          }
          breakdown := breakdown[pool := (if pool in breakdown then breakdown[pool] else 0) + take];
          remaining := remaining - take;
        }
      }
      if remaining > 0 {
        balances := committed;
        return Insufficient;
      }
      outcome := Spent(balances, breakdown, remaining);
    }

    method ReserveForTask(a: Account, id: TaskId, estimate: real) returns (outcome: ReserveOutcome)
      modifies this`balances, this`tasks
      ensures (Contents(), outcome) == Store.ReserveForTask(old(Contents()), a, id, estimate)
    {
      var available := TotalSpendable(balances, a) as real;
      var tier := ReserveTier(available, estimate);
      if tier == Reject {
        return Rejected;
      }
      var reserved := if tier == Normal then estimate else available;
      if FindTask(tasks, id) < |tasks| {
        return DuplicateTask;
      }
      tasks := tasks + [Task(id, a, estimate, reserved, tier == Degrade, None)];
      var spent := SpendFromPools(a, reserved);
      outcome := if spent.Spent? then Held(reserved) else RecordWithoutDebit;
    }

    method FinalizeTask(id: TaskId, actual: real) returns (outcome: FinalizeOutcome)
      modifies this`balances, this`tasks
      ensures (Contents(), outcome) == Store.FinalizeTask(old(Contents()), id, actual)
    {
      var i := FindTask(tasks, id);
      if i == |tasks| {
        return NoSuchTask;
      }
      var account := tasks[i].account;
      var delta := tasks[i].reserved - actual;
      if delta > 0.0 {
        CreditPool(account, Purchased, delta);
      } else if delta < 0.0 {
        var extra := -delta;
        if (TotalSpendable(balances, account) as real) < extra {
          return CannotSettle;
        }
        var spent := SpendFromPools(account, extra);
        if spent.Insufficient? {
          return CannotSettle;
        }
      }
      tasks := tasks[i := tasks[i].(settled := Some(actual))];
      outcome := Settled(Max(delta, 0.0));
    }

    method LockContribution(a: Account, amount: real, days: int, threshold: real, key: Option<KeyId>, now: int)
      returns (outcome: LockOutcome)
      modifies this`balances, this`installments
      ensures (Contents(), outcome) == Store.LockContribution(old(Contents()), a, amount, days, threshold, key, now)
    {
      if days !in {30, 90, 180} {
        return BadTerm;
      }
      if amount <= 0.0 {
        return BadAmount;
      }
      var unlocked := if (a, ContributionUnlocked) in balances then balances[(a, ContributionUnlocked)] else 0.0;
      if amount > Max(0.0, unlocked - threshold) {
        return OverLimit;
      }
      var debited := AtomicDebitPool(a, ContributionUnlocked, amount);
      if !debited {
        return CannotLock;
      }
      CreditPool(a, ContributionLocked, amount);
      var per := Round(amount / 3.0);
      var interval := if days / 3 > 1 then days / 3 else 1;
      installments := installments +
        [Installment(a, amount, per, 0, days, Active, Some(now + interval * SECONDS_PER_DAY), key, interval, 0.0)];
      outcome := LockedAs(|installments| - 1);
    }

    /** Pays one period of an active plan, or refuses when the locked pool is short. */
    method PayInstallmentPeriod(i: nat, now: int) returns (paid: bool, reward: int)
      requires i < |installments|
      modifies this`balances, this`installments
      ensures paid == CanDebit(old(balances), old(installments)[i].account, ContributionLocked,
          NextPrincipal(old(installments)[i]) as real)
      ensures reward == NextReward(old(installments)[i])
      ensures balances == if paid then PaidTable(old(balances), old(installments)[i]) else old(balances)
      ensures installments ==
          if paid then old(installments)[i := PaidRow(old(installments)[i], now)] else old(installments)
    {
      var row := installments[i];
      var remaining := if PERIODS - row.paid > 1 then PERIODS - row.paid else 1;
      var principal := if remaining > 1 then row.per else Round(row.total - Times(row.per, row.paid) as real);
      var total := RewardTotal(row);
      reward := if remaining == 1 then total - RewardAccrued(total, row.paid) else RewardPerPeriod(total);
      paid := AtomicDebitPool(row.account, ContributionLocked, principal as real);
      if paid {
        var purchased := if (row.account, Purchased) in balances then balances[(row.account, Purchased)] else 0.0;
        balances := balances[(row.account, Purchased) := purchased + (principal + reward) as real];
        installments := installments[i := PaidRow(row, now)];
      }
    }

    /** The rows are read once; a payment rewrites only its own row, so each is still as read. */
    method PayDueInstallments(who: Option<Account>, force: bool, now: int) returns (rewards: seq<int>)
      modifies this`balances, this`installments
      ensures Payments(balances, installments, rewards) ==
        PayRows(Payments(old(balances), old(installments), []), |old(installments)|, who, force, now)
    {
      ghost var start := Payments(balances, installments, []);
      var rows := installments;
      rewards := [];
      for i := 0 to |rows|
        invariant |installments| == |rows| && forall k :: i <= k < |rows| ==> installments[k] == rows[k]
        invariant Payments(balances, installments, rewards) == PayRows(start, i, who, force, now)
      {
        ghost var before := Payments(balances, installments, rewards);
        assert PayRows(start, i + 1, who, force, now) == PayRow(before, i, who, force, now);
        if Payable(rows[i], who, force, now) {
          var paid, reward := PayInstallmentPeriod(i, now);
          if paid {
            rewards := rewards + [reward];
          }
        }
      }
    }

    method ProcessLockInstallments(who: Option<Account>, force: bool, now: int)
      modifies this`balances, this`installments, this`faultLedger, this`settings
      ensures Contents() == Store.ProcessInstallments(old(Contents()), who, force, now)
    {
      var rewards := PayDueInstallments(who, force, now);
      ghost var paid := Contents();
      for k := 0 to |rewards|
        invariant Contents() == ClaimRewards(paid, rewards[..k])
      {
        assert rewards[..k + 1][..k] == rewards[..k];
        DisburseForLockReward(rewards[k]);
      }
      assert rewards[..|rewards|] == rewards;
    }

    method FaultPoolCredit(amount: real)
      modifies this`faultLedger
      ensures faultLedger == CreditEntry(old(faultLedger), amount)
    {
      if amount > 0.0 {
        faultLedger := faultLedger + [Entry(true, amount, Round(Balance(faultLedger) as real + amount))];
      }
    }

    method FaultPoolDebit(amount: real) returns (disbursed: real)
      modifies this`faultLedger
      ensures faultLedger == DebitEntry(old(faultLedger), amount)
      ensures disbursed == Disbursable(old(faultLedger), amount)
    {
      if amount <= 0.0 {
        return 0.0;
      }
      var balance := Balance(faultLedger) as real;
      disbursed := if amount <= balance then amount else balance;
      if disbursed <= 0.0 {
        return 0.0;
      }
      faultLedger := faultLedger + [Entry(false, disbursed, Round(balance - disbursed))];
    }

    method MaybeHandleDepletion()
      modifies this`settings
      ensures settings == HandleDepletion(faultLedger, old(settings))
    {
      if (Balance(faultLedger) as real) < settings.threshold {
        var take := Round(settings.takeRate + TAKE_STEP) as real;
        settings := settings.(takeRate := if take < TAKE_CAP then take else TAKE_CAP, publicPoolPaused := true);
      }
    }

    method CreditFaultPool(amount: real)
      modifies this`faultLedger, this`settings
      ensures Contents() == Store.CreditFaultPool(old(Contents()), amount)
    {
      FaultPoolCredit(amount);
      MaybeHandleDepletion();
    }

    method DisburseFromFaultPool(amount: real) returns (disbursed: real)
      modifies this`faultLedger, this`settings
      ensures Contents() == Store.DisburseFromFaultPool(old(Contents()), amount)
      ensures disbursed == Disbursable(old(faultLedger), amount)
    {
      disbursed := FaultPoolDebit(amount);
      MaybeHandleDepletion();
    }

    method DisburseForLockReward(reward: int)
      modifies this`faultLedger, this`settings
      ensures faultLedger == DisburseReward(old(faultLedger), reward as real)
      ensures settings == RewardSettings(old(faultLedger), reward as real, old(settings))
    {
      if reward <= 0 {
        return;
      }
      var disbursed := Min(reward as real, Balance(faultLedger) as real);
      if disbursed > 0.0 {
        var _ := DisburseFromFaultPool(disbursed);
      }
      var shortfall := Round(reward as real - disbursed);
      if shortfall > 0 {
        CreditFaultPool(shortfall as real);
      }
    }

    method ForfeitInstallmentKeyFailure(i: nat) returns (outcome: ExitOutcome)
      modifies this`balances, this`installments, this`faultLedger
      ensures (Contents(), outcome) == ForfeitPlan(old(Contents()), i)
    {
      if i >= |installments| || installments[i].status != Active {
        return NotActive;
      }
      var row := installments[i];
      var principal, reward := UnpaidPrincipal(row), UnpaidReward(row);
      var forfeit := (principal + reward) as real;
      if principal > 0 {
        var debited := AtomicDebitPool(row.account, ContributionLocked, principal as real);
        if !debited {
          var avail := if (row.account, ContributionLocked) in balances
              then balances[(row.account, ContributionLocked)] else 0.0;
          if avail > 0.0 {
            var _ := AtomicDebitPool(row.account, ContributionLocked, avail);
            forfeit := Round(avail + reward as real) as real;
          }
        }
      }
      assert balances == ForfeitTable(old(balances), row) && forfeit == ForfeitTotal(old(balances), row);
      installments := installments[i := row.(status := ForfeitedKeyFailure, forfeited := forfeit, nextDue := None)];
      FaultPoolCredit(forfeit);
      outcome := Exited(forfeit);
    }

    method ForfeitInstallmentsForKeyFailure(key: KeyId)
      modifies this`balances, this`installments, this`faultLedger
      ensures Contents() == ForfeitKey(old(Contents()), key, |old(installments)|)
    {
      ghost var start := Contents();
      var rows := installments;
      for i := 0 to |rows|
        invariant |installments| == |rows|
        invariant Contents() == ForfeitKey(start, key, i)
      {
        if rows[i].status == Active && rows[i].key == Some(key) {
          var _ := ForfeitInstallmentKeyFailure(i);
        }
      }
    }

    method EarlyUnlockInstallment(a: Account, i: nat) returns (outcome: ExitOutcome)
      modifies this`balances, this`installments, this`faultLedger
      ensures (Contents(), outcome) == EarlyUnlock(old(Contents()), a, i)
    {
      if i >= |installments| || installments[i].account != a || installments[i].status != Active {
        return NotActive;
      }
      var row := installments[i];
      var principal := UnpaidPrincipal(row);
      var forfeit := UnlockForfeit(row) as real;
      var returned := ReturnedPrincipal(row);
      if principal > 0 {
        var debited := AtomicDebitPool(a, ContributionLocked, principal as real);
        if !debited {
          return LockShort;
        }
      }
      if returned > 0 {
        CreditPool(a, ContributionUnlocked, returned as real);
      }
      installments := installments[i := row.(status := EarlyUnlocked, forfeited := forfeit, nextDue := None)];
      FaultPoolCredit(forfeit);
      outcome := Exited(forfeit);
    }
  }
}
