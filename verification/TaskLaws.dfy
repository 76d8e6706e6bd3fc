/**
  The billed-task lifecycle on arbitrary amounts: when reserving leaves a record
  without its debit, and how far settling can drift from conservation.
 */
module TaskLaws {
  import opened Collections
  import opened Money
  import opened Balances
  import opened LockPlans
  import opened Store

  /** What a task ties up for its account: the reservation while open, the cost once settled. */
  function TaskShare(t: Task, a: Account): real {
    if t.account != a then 0.0 else if t.settled.Some? then t.settled.value else t.reserved
  }

  function TaskTotal(tasks: seq<Task>, a: Account): real {
    if |tasks| == 0 then 0.0 else TaskTotal(tasks[..|tasks| - 1], a) + TaskShare(tasks[|tasks| - 1], a)
  }

  /** Spendable credit, open reservations and settled costs: what the task lifecycle moves around. */
  function Committed(s: State, a: Account): real {
    Spendable(s.balances, a) + TaskTotal(s.tasks, a)
  }

  lemma {:induction false} TaskTotalAppend(tasks: seq<Task>, t: Task, a: Account)
    ensures TaskTotal(tasks + [t], a) == TaskTotal(tasks, a) + TaskShare(t, a)
  {
    assert (tasks + [t])[..|tasks|] == tasks;
  }

  lemma {:induction false} TaskTotalUpdate(tasks: seq<Task>, i: nat, t: Task, a: Account)
    requires i < |tasks|
    ensures TaskTotal(tasks[i := t], a) == TaskTotal(tasks, a) - TaskShare(tasks[i], a) + TaskShare(t, a)
  {
    var last := |tasks| - 1;
    if i < last {
      assert tasks[i := t][..last] == tasks[..last][i := t];
      TaskTotalUpdate(tasks[..last], i, t, a);
    } else {
      assert tasks[i := t][..last] == tasks[..last];
    }
  }

  /** The tiers compare the balance with half the estimate and with the estimate. */
  lemma {:induction false} TierBounds(available: real, estimate: real)
    ensures ReserveTier(available, estimate) == Reject <==> estimate > 0.0 && available < estimate / 2.0
    ensures ReserveTier(available, estimate) == Degrade <==> estimate > 0.0 && estimate / 2.0 <= available < estimate
  {
    if estimate > 0.0 {
      RatioBelow(available, estimate, 0.5);
      RatioBelow(available, estimate, 1.0);
    }
  }

  lemma {:induction false} RatioBelow(x: real, y: real, c: real)
    requires y > 0.0
    ensures x / y < c <==> x < c * y
  {
    var ratio := x / y;
    assert ratio * y == x;
    if ratio < c {
      assert (c - ratio) * y > 0.0;
    } else {
      assert (ratio - c) * y >= 0.0;
    }
  }

  /**
    For every state: the record-before-debit order leaves a record without its
    debit exactly when a fresh, unrejected reservation is not covered pool by pool.
   */
  lemma {:induction false} OrphanIff(s: State, a: Account, id: TaskId, estimate: real)
    ensures var reserved := AmountToReserve(s.balances, a, estimate);
      ReserveForTask(s, a, id, estimate).1 == RecordWithoutDebit <==>
        && ReserveTier(TotalSpendable(s.balances, a) as real, estimate) != Reject
        && FindTask(s.tasks, id) == |s.tasks|
        && reserved > 0.0
        && !Covers(Bal(s.balances, a, MonthlyGrant), Bal(s.balances, a, Purchased), Round(reserved))
  {
    SpendSucceedsIff(s.balances, a, AmountToReserve(s.balances, a, estimate));
  }

  predicate Fresh(s: State, id: TaskId) {
    forall t <- s.tasks :: t.id != id
  }

  lemma {:induction false} FreshIff(s: State, id: TaskId)
    ensures Fresh(s, id) <==> FindTask(s.tasks, id) == |s.tasks|
  {
    var i := FindTask(s.tasks, id);
    if i < |s.tasks| { assert s.tasks[i] in s.tasks; }
  }

  /**
    For every state and estimate, what a reservation comes to, in terms of the
    balance as reported: less than half the estimate is rejected, from half to the
    estimate all of the balance is reserved and the task degraded, and otherwise
    the estimate. The task is recorded whether or not the debit goes through.
   */
  lemma {:induction false} ReservationIs(s: State, a: Account, id: TaskId, estimate: real, q: State)
    requires NonNegative(s.balances) && q == ReserveForTask(s, a, id, estimate).0
    ensures var out := ReserveForTask(s, a, id, estimate).1;
      var reported := Round(Spendable(s.balances, a)) as real;
      var short := estimate > 0.0 && reported < estimate;
      var amount := if short then reported else estimate;
      if estimate > 0.0 && reported < estimate / 2.0 then out == Rejected && q == s
      else if !Fresh(s, id) then out == DuplicateTask && q == s
      else
        && q.tasks == s.tasks + [Task(id, a, estimate, amount, short, None)]
        && q.plans == s.plans && q.fault == s.fault && q.settings == s.settings
        && (out == Held(amount) || out == RecordWithoutDebit)
        && Spendable(s.balances, a) - Spendable(q.balances, a)
           == (if out == Held(amount) && amount > 0.0 then Round(amount) else 0) as real
  {
    FreshIff(s, id);
    TierBounds(Round(Spendable(s.balances, a)) as real, estimate);
    var amount := AmountToReserve(s.balances, a, estimate);
    if Spend(s.balances, a, amount).Spent? { SpendTakesExactly(s.balances, a, amount); }
  }

  predicate SpendableOnGrid(t: Table, a: Account) {
    OnGrid(Bal(t, a, MonthlyGrant)) && OnGrid(Bal(t, a, Purchased))
  }

  lemma {:induction false} SpendableIsWhole(t: Table, a: Account)
    requires SpendableOnGrid(t, a)
    ensures OnGrid(Spendable(t, a)) && TotalSpendable(t, a) as real == Spendable(t, a)
  {
    GridSum(Bal(t, a, MonthlyGrant), Bal(t, a, Purchased));
    RoundGrid(Spendable(t, a));
  }

  /** On grid balances a whole reservation never leaves its record without its debit. */
  lemma {:induction false} NeverOrphanedOnGrid(s: State, a: Account, id: TaskId, estimate: real)
    requires NonNegative(s.balances) && SpendableOnGrid(s.balances, a) && OnGrid(estimate)
    ensures ReserveForTask(s, a, id, estimate).1 != RecordWithoutDebit
    ensures OnGrid(AmountToReserve(s.balances, a, estimate))
  {
    SpendableIsWhole(s.balances, a);
    var available := TotalSpendable(s.balances, a) as real;
    TierBounds(available, estimate);
    var reserved := AmountToReserve(s.balances, a, estimate);
    RoundGrid(reserved);
    SpendOnGridIff(s.balances, a, reserved);
  }

  /**
    On grid balances and estimates: the whole estimate is held when it is covered,
    the whole balance when it covers at least half of it, and nothing below that.
   */
  lemma {:induction false} WholeReservationIs(s: State, a: Account, id: TaskId, estimate: real, q: State)
    requires NonNegative(s.balances) && SpendableOnGrid(s.balances, a) && OnGrid(estimate)
    requires estimate > 0.0 && Fresh(s, id) && q == ReserveForTask(s, a, id, estimate).0
    ensures var (x, out) := (Spendable(s.balances, a), ReserveForTask(s, a, id, estimate).1);
      && (estimate <= x ==> out == Held(estimate) && Spendable(q.balances, a) == x - estimate
                            && q.tasks == s.tasks + [Task(id, a, estimate, estimate, false, None)])
      && (estimate / 2.0 <= x < estimate ==> out == Held(x) && Spendable(q.balances, a) == 0.0
                                             && q.tasks == s.tasks + [Task(id, a, estimate, x, true, None)])
      && (x < estimate / 2.0 ==> out == Rejected && q == s)
  {
    SpendableIsWhole(s.balances, a);
    NeverOrphanedOnGrid(s, a, id, estimate);
    ReservationIs(s, a, id, estimate, q);
    var x := Spendable(s.balances, a);
    RoundGrid(x);
    RoundGrid(estimate);
  }

  /**
    For every state and cost, what finalizing comes to: below the reservation the
    difference is refunded to purchased credit, above it the rest is debited, and
    the task then carries its cost; the status of the task plays no part.
   */
  lemma {:induction false} SettlementIs(s: State, id: TaskId, actual: real, q: State, i: nat)
    requires NonNegative(s.balances) && q == FinalizeTask(s, id, actual).0
    requires i <= |s.tasks| && (forall k :: 0 <= k < i ==> s.tasks[k].id != id)
    requires i < |s.tasks| ==> s.tasks[i].id == id
    ensures var out := FinalizeTask(s, id, actual).1;
      if i == |s.tasks| then out == NoSuchTask && q == s
      else
        var t := s.tasks[i];
        var (before, after) := (Spendable(s.balances, t.account), Spendable(q.balances, t.account));
        && (out.Settled? ==> q.tasks == s.tasks[i := t.(settled := Some(actual))]
                             && q.plans == s.plans && q.fault == s.fault && q.settings == s.settings)
        && (actual <= t.reserved ==>
              && out == Settled(t.reserved - actual)
              && Bal(q.balances, t.account, Purchased) == Bal(s.balances, t.account, Purchased) + t.reserved - actual
              && Bal(q.balances, t.account, MonthlyGrant) == Bal(s.balances, t.account, MonthlyGrant))
        && (actual > t.reserved ==>
              || (out == Settled(0.0) && before - after == Round(actual - t.reserved) as real
                  && Round(before) as real >= actual - t.reserved)
              || (out == CannotSettle && q == s))
  {
    TaskAt(s.tasks, id, i);
    if i < |s.tasks| && actual > s.tasks[i].reserved {
      var (a, extra) := (s.tasks[i].account, actual - s.tasks[i].reserved);
      if Spend(s.balances, a, extra).Spent? { SpendTakesExactly(s.balances, a, extra); }
    }
  }

  lemma {:induction false} TaskAt(tasks: seq<Task>, id: TaskId, i: nat)
    requires i <= |tasks| && (forall k :: 0 <= k < i ==> tasks[k].id != id) && (i < |tasks| ==> tasks[i].id == id)
    ensures FindTask(tasks, id) == i
  {
    var k := FindTask(tasks, id);
  }

  /** Off the grid it can: 0.6 units of monthly credit are reported as 1 and reserved as 1. */
  lemma {:induction false} OrphanExample(s: State, a: Account, id: TaskId)
    requires s.balances == map[(a, MonthlyGrant) := 0.6] && s.tasks == []
    ensures ReserveForTask(s, a, id, 1.0).1 == RecordWithoutDebit
  {
    RoundIsUnique(0.6, 1);
    RoundWhole(1);
    TierBounds(1.0, 1.0);
    OrphanIff(s, a, id, 1.0);
  }

  /** A reservation that holds moves credit from the pools into the open task. */
  lemma {:induction false} ReserveConserves(s: State, b: Account, id: TaskId, estimate: real, a: Account)
    requires NonNegative(s.balances) && estimate >= 0.0 && OnGrid(estimate)
    requires ReserveForTask(s, b, id, estimate).1 != RecordWithoutDebit
    ensures Committed(ReserveForTask(s, b, id, estimate).0, a) == Committed(s, a)
  {
    var (q, out) := ReserveForTask(s, b, id, estimate);
    if out.Held? {
      var reserved := AmountToReserve(s.balances, b, estimate);
      RoundWhole(TotalSpendable(s.balances, b));
      TierBounds(TotalSpendable(s.balances, b) as real, estimate);
      assert reserved >= 0.0;
      RoundGrid(reserved);
      SpendTakesExactly(s.balances, b, reserved);
      TaskTotalAppend(s.tasks, q.tasks[|s.tasks|], a);
    }
  }

  /** How far one settlement moves the account's committed total, for every state and cost. */
  function SettleDrift(s: State, id: TaskId, actual: real, a: Account): real {
    var (q, _) := FinalizeTask(s, id, actual);
    Committed(q, a) - Committed(s, a)
  }

  lemma {:induction false} ExtraIsTaken(t: Table, b: Account, extra: real, a: Account)
    requires NonNegative(t) && Spend(t, b, extra).Spent? && extra > 0.0
    ensures Spendable(Spend(t, b, extra).table, a) == Spendable(t, a) - (if a == b then Round(extra) else 0) as real
  {
    SpendTakesExactly(t, b, extra);
  }

  lemma {:induction false} SettleMovesPools(s: State, id: TaskId, actual: real, a: Account)
    requires NonNegative(s.balances) && FinalizeTask(s, id, actual).1.Settled?
    ensures var t := s.tasks[FindTask(s.tasks, id)];
      var extra := actual - t.reserved;
      Spendable(FinalizeTask(s, id, actual).0.balances, a) - Spendable(s.balances, a)
      == if a != t.account then 0.0 else if extra > 0.0 then -(Round(extra) as real) else -extra
  {
    var t := s.tasks[FindTask(s.tasks, id)];
    if actual > t.reserved { ExtraIsTaken(s.balances, t.account, actual - t.reserved, a); }
  }

  lemma {:induction false} SettleClosesTask(s: State, id: TaskId, actual: real)
    requires FinalizeTask(s, id, actual).1.Settled?
    ensures var i := FindTask(s.tasks, id);
      i < |s.tasks| && FinalizeTask(s, id, actual).0.tasks == s.tasks[i := s.tasks[i].(settled := Some(actual))]
  {
  }

  /**
    For every state and cost. Settling an open task conserves the committed total
    up to the rounding of an extra debit, at most half a unit. Settling a task
    again, which nothing prevents, also moves it by reservation less previous cost.
   */
  lemma {:induction false} SettleDriftIs(s: State, id: TaskId, actual: real, a: Account)
    requires NonNegative(s.balances) && FinalizeTask(s, id, actual).1.Settled?
    ensures var t := s.tasks[FindTask(s.tasks, id)];
      var extra := actual - t.reserved;
      var again := if t.settled.Some? then t.reserved - t.settled.value else 0.0;
      var rounding := if extra > 0.0 then extra - Round(extra) as real else 0.0;
      && SettleDrift(s, id, actual, a) == (if a == t.account then again + rounding else 0.0)
      && -0.5 <= rounding <= 0.5
      && (OnGrid(extra) ==> rounding == 0.0)
  {
    var i := FindTask(s.tasks, id);
    var t := s.tasks[i];
    TaskTotalUpdate(s.tasks, i, t.(settled := Some(actual)), a);
    SettleClosesTask(s, id, actual);
    SettleMovesPools(s, id, actual, a);
    if OnGrid(actual - t.reserved) { RoundGrid(actual - t.reserved); }
  }

  /** A refused settlement changes nothing; on the grid it is refused exactly for lack of credit. */
  lemma {:induction false} SettleRefusedIff(s: State, id: TaskId, actual: real)
    requires NonNegative(s.balances) && FindTask(s.tasks, id) < |s.tasks|
    requires var t := s.tasks[FindTask(s.tasks, id)];
      OnGrid(actual - t.reserved) && SpendableOnGrid(s.balances, t.account)
    ensures var t := s.tasks[FindTask(s.tasks, id)];
      FinalizeTask(s, id, actual).1 == CannotSettle <==> Spendable(s.balances, t.account) < actual - t.reserved
    ensures FinalizeTask(s, id, actual).1 == CannotSettle ==> FinalizeTask(s, id, actual).0 == s
  {
    var t := s.tasks[FindTask(s.tasks, id)];
    var extra := actual - t.reserved;
    SpendableIsWhole(s.balances, t.account);
    if extra > 0.0 {
      RoundGrid(extra);
      SpendOnGridIff(s.balances, t.account, extra);
    } else {
      assert Bal(s.balances, t.account, MonthlyGrant) >= 0.0 && Bal(s.balances, t.account, Purchased) >= 0.0;
    }
  }

  /** An open task of 10 units, settled at 4 by one finalization after the other: 6 are refunded each time. */
  lemma {:induction false} SettleTwiceRefundsTwice(s: State, a: Account, id: TaskId, reserved: real, actual: real)
    requires s.balances == map[] && s.tasks == [Task(id, a, reserved, reserved, false, None)]
    requires reserved == 10.0 && actual == 4.0
    ensures var (once, first) := FinalizeTask(s, id, actual);
      var (twice, second) := FinalizeTask(once, id, actual);
      && first == second == Settled(6.0)
      && Bal(once.balances, a, Purchased) == 6.0 && Bal(twice.balances, a, Purchased) == 12.0
      && Committed(once, a) == Committed(s, a) && Committed(twice, a) == Committed(s, a) + 6.0
  {
    var (once, _) := FinalizeTask(s, id, actual);
    assert once.tasks == [Task(id, a, reserved, reserved, false, Some(actual))];
    SettleDriftIs(s, id, actual, a);
    SettleDriftIs(once, id, actual, a);
  }

  /** Finalizing a settled task again at the same cost moves nothing exactly when the cost was the reservation. */
  lemma {:induction false} SettleAgainIff(s: State, id: TaskId, actual: real)
    requires NonNegative(s.balances) && FinalizeTask(s, id, actual).1.Settled?
    requires s.tasks[FindTask(s.tasks, id)].settled == Some(actual)
    requires OnGrid(actual) && OnGrid(s.tasks[FindTask(s.tasks, id)].reserved)
    ensures var t := s.tasks[FindTask(s.tasks, id)];
      SettleDrift(s, id, actual, t.account) == 0.0 <==> actual == t.reserved
  {
    var t := s.tasks[FindTask(s.tasks, id)];
    GridSum(actual, t.reserved);
    SettleDriftIs(s, id, actual, t.account);
  }
}
