/**
  Three-instalment lock-ups: the amounts a plan pays, forfeits and returns.

  A plan's total may lie off the grid; every amount paid out of it is rounded
  and therefore whole.
 */
module LockPlans {
  import opened Collections
  import opened Money
  import opened Balances

  type KeyId = string
  datatype Status = Active | Completed | ForfeitedKeyFailure | EarlyUnlocked

  datatype Installment = Installment(
    account: Account, total: real, per: int, paid: nat, lockDays: int, status: Status,
    nextDue: Option<int>, key: Option<KeyId>, intervalDays: int, forfeited: real)

  const PERIODS := 3
  const SECONDS_PER_DAY := 86400
  const PENALTY_RATIO := 0.05

  function IntervalDays(lockDays: int): int {
    if lockDays < 3 then 1 else lockDays / 3
  }

  /** x added up k times, the `per * paid` of a plan, kept out of the solver's sight. */
  function Times(x: int, k: nat): int {
    if k == 0 then 0 else x + Times(x, k - 1)
  }

  /** Adding up is multiplying. */
  lemma {:induction false} TimesIsProduct(x: int, k: nat)
    ensures Times(x, k) == x * k
  {
    if k > 0 { TimesIsProduct(x, k - 1); }
  }

  lemma {:induction false} SmallTimes(x: int)
    ensures Times(x, 0) == 0 && Times(x, 1) == x && Times(x, 2) == 2 * x
  {
    assert Times(x, 1) == x + Times(x, 0);
    assert Times(x, 2) == x + Times(x, 1);
  }

  function PerInstallment(total: real): int {
    Round(total / 3.0)
  }

  predicate IsTerm(days: int) {
    days == 30 || days == 90 || days == 180
  }

  function Multiplier(days: int): real {
    if days == 30 then 1.02 else if days == 90 then 1.08 else 1.20
  }

  /** The reward before rounding, the multiplier's excess over one applied term by term. */
  function RewardBase(total: real, days: int): real {
    if days == 30 then total * 0.02 else if days == 90 then total * 0.08 else total * 0.20
  }

  lemma {:induction false} RewardBaseIsExcess(total: real, days: int)
    ensures RewardBase(total, days) == total * Max(0.0, Multiplier(days) - 1.0)
  {
    if days == 30 {
      assert Max(0.0, Multiplier(days) - 1.0) == 0.02;
    } else if days == 90 {
      assert Max(0.0, Multiplier(days) - 1.0) == 0.08;
    } else {
      assert Max(0.0, Multiplier(days) - 1.0) == 0.20;
    }
  }

  function RewardTotal(row: Installment): int {
    Round(RewardBase(row.total, row.lockDays))
  }

  function RewardPerPeriod(reward: int): int {
    Round(reward as real / 3.0)
  }

  /** The part of a reward deemed paid after `paid` periods, which is not the sum of the payments. */
  function RewardAccrued(reward: int, paid: nat): int {
    Round(Times(reward, paid) as real / 3.0)
  }

  function RewardOfPeriod(reward: int, paid: nat): int {
    if paid < PERIODS - 1 then RewardPerPeriod(reward) else reward - RewardAccrued(reward, paid)
  }

  /** Principal and reward of the next payment. */
  function NextPrincipal(row: Installment): int {
    if row.paid < PERIODS - 1 then row.per else Round(row.total - Times(row.per, row.paid) as real)
  }

  function NextReward(row: Installment): int {
    RewardOfPeriod(RewardTotal(row), row.paid)
  }

  function UnpaidPrincipal(row: Installment): (r: int)
    ensures r >= 0
  {
    Round(Max(0.0, row.total - Times(row.per, row.paid) as real))
  }

  function RewardUnpaid(reward: int, paid: nat): (r: int)
    ensures r >= 0
  {
    Round(Max(0.0, (reward - RewardAccrued(reward, paid)) as real))
  }

  function UnpaidReward(row: Installment): (r: int)
    ensures r >= 0
  {
    RewardUnpaid(RewardTotal(row), row.paid)
  }

  function Penalty(row: Installment): int {
    Round(row.total * PENALTY_RATIO)
  }

  function ReturnedPrincipal(row: Installment): (r: int)
    ensures r >= 0
  {
    Round(Max(0.0, (UnpaidPrincipal(row) - Penalty(row)) as real))
  }

  /** What lock-up creates: a positive total cut into rounded thirds. */
  predicate Lawful(row: Installment) {
    && row.total > 0.0
    && row.per == PerInstallment(row.total)
    && row.paid <= PERIODS
    && IsTerm(row.lockDays)
    && (row.status == Active ==> row.paid < PERIODS)
    && (row.status == Completed ==> row.paid == PERIODS)
  }

  /** Principal and reward handed out by the first `k` payments. */
  function PrincipalPaid(row: Installment, k: nat): int {
    if k == 0 then 0 else PrincipalPaid(row, k - 1) + NextPrincipal(row.(paid := k - 1))
  }

  function RewardPaid(reward: int, k: nat): int {
    if k == 0 then 0 else RewardPaid(reward, k - 1) + RewardOfPeriod(reward, k - 1)
  }

  // ---- arithmetic of thirds

  lemma {:induction false} ThirdOf(n: int)
    ensures Round(n as real / 3.0) == (n + 1) / 3
  {
    RoundIsUnique(n as real / 3.0, (n + 1) / 3);
  }

  lemma {:induction false} TwoThirdsOf(n: int)
    ensures Round((2 * n) as real / 3.0) == (2 * n + 1) / 3
  {
    RoundIsUnique((2 * n) as real / 3.0, (2 * n + 1) / 3);
  }

  lemma {:induction false} AccruedRewards(n: int)
    ensures RewardPerPeriod(n) == (n + 1) / 3
    ensures RewardAccrued(n, 0) == 0
    ensures RewardAccrued(n, 1) == (n + 1) / 3
    ensures RewardAccrued(n, 2) == (2 * n + 1) / 3
  {
    ThirdOf(n);
    TwoThirdsOf(n);
    RoundWhole(0);
    SmallTimes(n);
  }

  // ---- principal

  lemma {:induction false} FirstPayments(row: Installment)
    ensures PrincipalPaid(row, 0) == 0
    ensures PrincipalPaid(row, 1) == row.per
    ensures PrincipalPaid(row, 2) == 2 * row.per
    ensures PrincipalPaid(row, 3) == 2 * row.per + NextPrincipal(row.(paid := 2))
  {
    assert PrincipalPaid(row, 1) == PrincipalPaid(row, 0) + NextPrincipal(row.(paid := 0));
    assert PrincipalPaid(row, 2) == PrincipalPaid(row, 1) + NextPrincipal(row.(paid := 1));
  }

  lemma {:induction false} LastPrincipal(row: Installment)
    requires row.paid == PERIODS - 1
    ensures NextPrincipal(row) == Round(row.total) - 2 * row.per
  {
    SmallTimes(row.per);
    assert row.total - Times(row.per, 2) as real == row.total + (-2 * row.per) as real;
    RoundShiftEven(row.total, -2 * row.per);
  }

  /** For every total: three payments hand out its rounding, hence all of it iff it is on the grid. */
  lemma {:induction false} PrincipalPaysRounding(row: Installment)
    ensures PrincipalPaid(row, PERIODS) == Round(row.total)
    ensures PrincipalPaid(row, PERIODS) as real == row.total <==> OnGrid(row.total)
  {
    FirstPayments(row);
    LastPrincipal(row.(paid := 2));
    RoundWhole(Round(row.total));
    if OnGrid(row.total) { RoundGrid(row.total); }
  }

  /** What is left before the last payment covers it exactly when the total does not round up. */
  lemma {:induction false} LastPaymentCovered(row: Installment)
    requires row.paid == PERIODS - 1
    ensures row.total - PrincipalPaid(row, 2) as real >= NextPrincipal(row) as real
        <==> row.total >= Round(row.total) as real
  {
    FirstPayments(row);
    LastPrincipal(row);
  }

  /** A lock of 0.6 units cannot make its last payment: 1 unit is due and 0.6 are there. */
  lemma {:induction false} OffGridLockStalls(row: Installment)
    requires row.total == 0.6 && row.per == PerInstallment(0.6) && row.paid == 2
    ensures NextPrincipal(row) == 1 && row.total - PrincipalPaid(row, 2) as real == 0.6
  {
    RoundIsUnique(0.2, 0);
    RoundIsUnique(0.6, 1);
    FirstPayments(row);
    LastPrincipal(row);
  }

  /** On the grid nothing is clipped: unpaid principal is the total less the payments made. */
  lemma {:induction false} UnpaidIsRest(row: Installment)
    requires Lawful(row) && OnGrid(row.total) && row.paid < PERIODS
    ensures row.total - Times(row.per, row.paid) as real >= 0.0
    ensures row.total == (PrincipalPaid(row, row.paid) + UnpaidPrincipal(row)) as real
    ensures PrincipalPaid(row, row.paid) == Times(row.per, row.paid)
    ensures 0 <= NextPrincipal(row) <= UnpaidPrincipal(row)
    ensures row.paid == PERIODS - 1 ==> NextPrincipal(row) == UnpaidPrincipal(row)
    ensures row.paid < PERIODS - 1 ==>
      UnpaidPrincipal(row.(paid := row.paid + 1)) == UnpaidPrincipal(row) - NextPrincipal(row)
  {
    var n := row.total.Floor;
    ThirdOf(n);
    assert row.per == (n + 1) / 3;
    FirstPayments(row);
    SmallTimes(row.per);
    assert row.paid == 0 || row.paid == 1 || row.paid == 2;
    RoundWhole(n - Times(row.per, row.paid));
    if row.paid < PERIODS - 1 {
      RoundWhole(n - Times(row.per, row.paid + 1));
    }
  }

  /** What is left of a plan's total before any rounding; off the grid it can be negative. */
  function Rest(row: Installment): real {
    row.total - Times(row.per, row.paid) as real
  }

  /** A plan with payments to come, its total on the grid or not. */
  predicate Running(row: Installment) {
    row.total > 0.0 && row.per == PerInstallment(row.total) && row.paid < PERIODS
  }

  lemma {:induction false} RestIs(row: Installment)
    requires row.paid < PERIODS
    ensures Rest(row)
        == row.total - (if row.paid == 0 then 0 else if row.paid == 1 then row.per else 2 * row.per) as real
  {
    SmallTimes(row.per);
  }

  lemma {:induction false} PenaltyFits(row: Installment)
    requires Running(row)
    ensures 0 <= Penalty(row) <= UnpaidPrincipal(row)
  {
    RestIs(row);
    var most := Max(0.0, Rest(row));
    RoundMonotone(0.0, row.total * PENALTY_RATIO);
    RoundWhole(0);
    if row.total <= 10.0 {
      RoundMonotone(row.total * PENALTY_RATIO, 0.5);
      RoundIsUnique(0.5, 0);
    } else {
      assert most >= row.total / 3.0 - 1.0;
      RoundMonotone(row.total * PENALTY_RATIO, most);
    }
  }

  /**
    For every total, on the grid or not: early unlock splits the unpaid principal
    exactly into the penalty and what is returned, the second clamp never clips,
    and the split is all that is left of the total exactly when that is on the grid.
   */
  lemma {:induction false} EarlyUnlockSplits(row: Installment)
    requires Running(row)
    ensures 0 <= Penalty(row) <= UnpaidPrincipal(row)
    ensures UnpaidPrincipal(row) == ReturnedPrincipal(row) + Penalty(row)
    ensures (ReturnedPrincipal(row) + Penalty(row)) as real == Rest(row) <==> OnGrid(row.total)
  {
    PenaltyFits(row);
    RoundWhole(UnpaidPrincipal(row) - Penalty(row));
    UnpaidIsRestIff(row);
  }

  /** Rounding the rest loses nothing exactly on the grid. */
  lemma {:induction false} UnpaidIsRestIff(row: Installment)
    requires Running(row)
    ensures UnpaidPrincipal(row) as real == Rest(row) <==> OnGrid(row.total)
  {
    var paid := Times(row.per, row.paid);
    RoundWhole(paid);
    RoundWhole(UnpaidPrincipal(row));
    if OnGrid(row.total) {
      GridSum(row.total, paid as real);
      RoundGrid(Rest(row));
      RestNonNegativeIff(row);
    } else if UnpaidPrincipal(row) as real == Rest(row) {
      GridSum(Rest(row), paid as real);
    }
  }

  /** The clamp on unpaid principal clips only a total between 1.5 and 2 units, after two payments. */
  lemma {:induction false} RestNonNegativeIff(row: Installment)
    requires Running(row)
    ensures Rest(row) < 0.0 <==> row.paid == 2 && (2 * row.per) as real > row.total
    ensures Rest(row) < 0.0 <==> row.paid == 2 && 1.5 < row.total < 2.0
  {
    RestIs(row);
    RoundMonotone(0.0, row.total / 3.0);
    RoundWhole(0);
    if row.total <= 1.5 {
      RoundMonotone(row.total / 3.0, 0.5);
      RoundIsUnique(0.5, 0);
    } else if row.total < 4.5 {
      RoundIsUnique(row.total / 3.0, 1);
    }
  }

  /** Off the grid the split is not all of the rest: a 10.5 lock returns 9 and charges 1. */
  lemma {:induction false} EarlyUnlockOffGrid(row: Installment)
    requires row.total == 10.5 && row.paid == 0
    ensures UnpaidPrincipal(row) == 10 && Penalty(row) == 1 && ReturnedPrincipal(row) == 9
    ensures (ReturnedPrincipal(row) + Penalty(row)) as real < row.total
  {
    RoundIsUnique(10.5, 10);
    RoundIsUnique(0.525, 1);
    RoundWhole(9);
  }

  // ---- rewards

  /** The three reward payments miss the promised total by at most one unit, by its residue. */
  lemma {:induction false} RewardsPaidInFull(n: int)
    ensures RewardPaid(n, PERIODS) == if n % 3 == 0 then n else if n % 3 == 1 then n - 1 else n + 1
  {
    AccruedRewards(n);
    RewardsAfter(n);
    ThirdsMiss(n);
  }

  lemma {:induction false} ThirdsMiss(n: int)
    ensures 2 * ((n + 1) / 3) - (2 * n + 1) / 3 == if n % 3 == 0 then 0 else if n % 3 == 1 then -1 else 1
  {
    var q := n / 3;
    if n == 3 * q {
      assert (n + 1) / 3 == q && (2 * n + 1) / 3 == 2 * q;
    } else if n == 3 * q + 1 {
      assert (n + 1) / 3 == q && (2 * n + 1) / 3 == 2 * q + 1;
    } else {
      assert n == 3 * q + 2;
      assert (n + 1) / 3 == q + 1 && (2 * n + 1) / 3 == 2 * q + 1;
    }
  }

  lemma {:induction false} RewardsAfter(n: int)
    ensures RewardPaid(n, 1) == RewardPerPeriod(n)
    ensures RewardPaid(n, 2) == 2 * RewardPerPeriod(n)
    ensures RewardPaid(n, 3) == 2 * RewardPerPeriod(n) + n - RewardAccrued(n, 2)
  {
    assert RewardPaid(n, 0) == 0;
    assert RewardPaid(n, 1) == RewardPerPeriod(n);
    assert RewardPaid(n, 2) == 2 * RewardPerPeriod(n);
  }

  /** Paid plus forfeited reward when a plan stops early: exact until two payments were made. */
  lemma {:induction false} RewardsOnEarlyExit(n: int, paid: nat)
    requires n >= 0 && paid < PERIODS
    ensures RewardPaid(n, paid) + RewardUnpaid(n, paid) ==
      if paid < 2 || n % 3 == 0 then n else if n % 3 == 1 then n - 1 else n + 1
  {
    AccruedRewards(n);
    RewardsAfter(n);
    ThirdsMiss(n);
    var rest := n - RewardAccrued(n, paid);
    assert paid == 0 || paid == 1 || paid == 2;
    assert rest >= 0;
    RoundWhole(rest);
    assert RewardUnpaid(n, paid) == rest;
    assert paid == 0 ==> RewardPaid(n, paid) == 0;
  }

  /**
    The reward is 2, 8 or 20 percent of the total for a term of 30, 90 or 180 days,
    to the nearest unit, and the penalty for leaving early is 5 percent whatever the term.
   */
  lemma {:induction false} RewardByTerm(row: Installment)
    ensures row.lockDays == 30 ==> -0.5 <= RewardTotal(row) as real - row.total * 2.0 / 100.0 <= 0.5
    ensures row.lockDays == 90 ==> -0.5 <= RewardTotal(row) as real - row.total * 8.0 / 100.0 <= 0.5
    ensures row.lockDays == 180 ==> -0.5 <= RewardTotal(row) as real - row.total / 5.0 <= 0.5
    ensures -0.5 <= Penalty(row) as real - row.total / 20.0 <= 0.5
  {
  }

  /** A longer term never earns less. */
  lemma {:induction false} LongerEarnsMore(row: Installment)
    requires row.total >= 0.0
    ensures RewardTotal(row.(lockDays := 30)) <= RewardTotal(row.(lockDays := 90))
    ensures RewardTotal(row.(lockDays := 90)) <= RewardTotal(row.(lockDays := 180))
  {
    RoundMonotone(row.total * 0.02, row.total * 0.08);
    RoundMonotone(row.total * 0.08, row.total * 0.20);
  }

  /** Every payment of a non-negative reward is non-negative. */
  lemma {:induction false} RewardPaymentsNonNegative(n: int, paid: nat)
    requires n >= 0 && paid < PERIODS
    ensures RewardOfPeriod(n, paid) >= 0
  {
    AccruedRewards(n);
  }

  lemma {:induction false} RewardTotalNonNegative(row: Installment)
    requires row.total >= 0.0
    ensures RewardTotal(row) >= 0
  {
    RoundMonotone(0.0, RewardBase(row.total, row.lockDays));
    RoundWhole(0);
  }
}
