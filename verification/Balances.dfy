/**
  The balances table, and the all-or-nothing debit across spendable pools.
 */
module Balances {
  import opened Collections
  import opened Money

  type Account = string
  datatype Pool = MonthlyGrant | Purchased | ContributionUnlocked | ContributionLocked | Locked

  /** One row per (account, pool); a missing row reads as zero but cannot be debited. */
  type Table = map<(Account, Pool), real>

  const SPEND_ORDER: seq<Pool> := [MonthlyGrant, Purchased]

  datatype Outcome = Insufficient | Spent(table: Table, breakdown: map<Pool, int>, remaining: int)

  function Bal(t: Table, a: Account, p: Pool): real {
    if (a, p) in t then t[(a, p)] else 0.0
  }

  function Spendable(t: Table, a: Account): real {
    Bal(t, a, MonthlyGrant) + Bal(t, a, Purchased)
  }

  predicate CanDebit(t: Table, a: Account, p: Pool, x: real) {
    (a, p) in t && t[(a, p)] >= x
  }

  function Debit(t: Table, a: Account, p: Pool, x: real): Table
    requires CanDebit(t, a, p, x)
  {
    t[(a, p) := t[(a, p)] - x]
  }

  function Credit(t: Table, a: Account, p: Pool, x: real): Table {
    t[(a, p) := Bal(t, a, p) + x]
  }

  function Taken(breakdown: map<Pool, int>, p: Pool): int {
    if p in breakdown then breakdown[p] else 0
  }

  predicate NonNegative(t: Table) {
    forall k <- t :: t[k] >= 0.0
  }

  /** What one pool contributes towards a remaining amount. */
  function Take(avail: real, remaining: int): int {
    Round(Min(avail, remaining as real))
  }

  /** The spending loop over the pools still to be visited. */
  function SpendOver(t: Table, a: Account, order: seq<Pool>, remaining: int, breakdown: map<Pool, int>): Outcome {
    if |order| == 0 || remaining <= 0 then
      Spent(t, breakdown, remaining)
    else if Bal(t, a, order[0]) <= 0.0 then
      SpendOver(t, a, order[1..], remaining, breakdown)
    else
      var take := Take(Bal(t, a, order[0]), remaining);
      if !CanDebit(t, a, order[0], take as real) then
        Insufficient
      else
        SpendOver(Debit(t, a, order[0], take as real), a, order[1..], remaining - take,
                  breakdown[order[0] := Taken(breakdown, order[0]) + take])
  }

  /** The whole units a debit of `amount` owes. */
  function Due(amount: real): (due: int)
    ensures due >= 0
  {
    if amount <= 0.0 then 0 else Round(amount)
  }

  /** A debit of `amount`: a failure leaves the caller's table in force. */
  function Spend(t: Table, a: Account, amount: real): Outcome {
    if amount <= 0.0 then
      Spent(t, map[], 0)
    else
      match SpendOver(t, a, SPEND_ORDER, Round(amount), map[])
      case Insufficient => Insufficient
      case Spent(u, breakdown, rest) => if rest > 0 then Insufficient else Spent(u, breakdown, rest)
  }

  function Total(t: Table, a: Account, order: seq<Pool>): real {
    if |order| == 0 then 0.0 else Bal(t, a, order[0]) + Total(t, a, order[1..])
  }

  lemma {:induction false} TotalUntouched(t: Table, u: Table, a: Account, order: seq<Pool>)
    requires forall p <- order :: Bal(t, a, p) == Bal(u, a, p)
    ensures Total(t, a, order) == Total(u, a, order)
  {
    if |order| > 0 {
      assert order[0] in order;
      TotalUntouched(t, u, a, order[1..]);
    }
  }

  /** For any spending order: what left the pools is what was asked less what remains. */
  lemma {:induction false} SpendOverConserves(t: Table, a: Account, order: seq<Pool>, remaining: int,
                                              breakdown: map<Pool, int>, out: Outcome)
    requires Distinct(order) && remaining >= 0 && out == SpendOver(t, a, order, remaining, breakdown) && out.Spent?
    ensures 0 <= out.remaining <= remaining
    ensures Total(t, a, order) - Total(out.table, a, order) == (remaining - out.remaining) as real
    decreases |order|
  {
    if |order| == 0 || remaining <= 0 {
    } else if Bal(t, a, order[0]) <= 0.0 {
      SpendOverConserves(t, a, order[1..], remaining, breakdown, out);
      SpendOverFrame(t, a, order[1..], remaining, breakdown);
      TotalSplits(t, out.table, a, order);
    } else {
      var p := order[0];
      var take := Take(Bal(t, a, p), remaining);
      TakeBounds(Bal(t, a, p), remaining);
      var u := Debit(t, a, p, take as real);
      var more := breakdown[p := Taken(breakdown, p) + take];
      SpendOverConserves(u, a, order[1..], remaining - take, more, out);
      SpendOverFrame(u, a, order[1..], remaining - take, more);
      TotalUntouched(t, u, a, order[1..]);
      TotalSplits(t, out.table, a, order);
    }
  }

  lemma {:induction false} TotalSplits(t: Table, u: Table, a: Account, order: seq<Pool>)
    requires |order| > 0
    ensures Total(t, a, order) == Bal(t, a, order[0]) + Total(t, a, order[1..])
    ensures Total(u, a, order) == Bal(u, a, order[0]) + Total(u, a, order[1..])
  {
  }

  lemma {:induction false} TakeBounds(avail: real, remaining: int)
    requires avail > 0.0 && remaining > 0
    ensures 0 <= Take(avail, remaining) <= remaining
  {
    RoundMonotone(Min(avail, remaining as real), remaining as real);
  }

  /** Pools outside the order, other accounts and the set of rows are left alone. */
  lemma {:induction false} SpendOverFrame(t: Table, a: Account, order: seq<Pool>, remaining: int, breakdown: map<Pool,
                                          int>)
    ensures var out := SpendOver(t, a, order, remaining, breakdown);
      out.Spent? ==>
        && out.table.Keys == t.Keys
        && (forall b, p :: b != a || p !in order ==> Bal(out.table, b, p) == Bal(t, b, p))
        && (forall p :: p !in order ==> Taken(out.breakdown, p) == Taken(breakdown, p))
    decreases |order|
  {
    if |order| == 0 || remaining <= 0 {
    } else if Bal(t, a, order[0]) <= 0.0 {
      SpendOverFrame(t, a, order[1..], remaining, breakdown);
    } else {
      var p := order[0];
      var take := Take(Bal(t, a, p), remaining);
      if CanDebit(t, a, p, take as real) {
        SpendOverFrame(Debit(t, a, p, take as real), a, order[1..], remaining - take,
                       breakdown[p := Taken(breakdown, p) + take]);
      }
    }
  }

  /** No pool is overdrawn. */
  lemma {:induction false} SpendOverNonNegative(t: Table, a: Account, order: seq<Pool>, remaining: int,
                                                breakdown: map<Pool, int>)
    requires NonNegative(t)
    ensures var out := SpendOver(t, a, order, remaining, breakdown);
      out.Spent? ==> NonNegative(out.table)
    decreases |order|
  {
    if |order| == 0 || remaining <= 0 {
    } else if Bal(t, a, order[0]) <= 0.0 {
      SpendOverNonNegative(t, a, order[1..], remaining, breakdown);
    } else {
      var p := order[0];
      var take := Take(Bal(t, a, p), remaining);
      if CanDebit(t, a, p, take as real) {
        SpendOverNonNegative(Debit(t, a, p, take as real), a, order[1..], remaining - take,
                             breakdown[p := Taken(breakdown, p) + take]);
      }
    }
  }

  /** The breakdown says exactly what each pool paid. */
  lemma {:induction false} SpendOverBreakdown(t: Table, a: Account, order: seq<Pool>, remaining: int,
                                              breakdown: map<Pool, int>, q: Pool)
    ensures var out := SpendOver(t, a, order, remaining, breakdown);
      out.Spent? ==>
        Bal(t, a, q) - Bal(out.table, a, q) == (Taken(out.breakdown, q) - Taken(breakdown, q)) as real
    decreases |order|
  {
    if |order| == 0 || remaining <= 0 {
    } else if Bal(t, a, order[0]) <= 0.0 {
      SpendOverBreakdown(t, a, order[1..], remaining, breakdown, q);
    } else {
      var p := order[0];
      var take := Take(Bal(t, a, p), remaining);
      if CanDebit(t, a, p, take as real) {
        SpendOverBreakdown(Debit(t, a, p, take as real), a, order[1..], remaining - take,
                           breakdown[p := Taken(breakdown, p) + take], q);
      }
    }
  }

  /**
    When a debit of `due` whole units goes through, decided by the two balances
    alone: monthly credit covers it, or monthly credit does not round up past
    itself and purchased credit covers what its rounding leaves.
   */
  predicate Covers(monthly: real, purchased: real, due: int) {
    || due <= 0
    || monthly >= due as real
    || ((monthly <= 0.0 || Round(monthly) as real <= monthly)
        && purchased >= due as real - Max(0.0, Round(monthly) as real))
  }

  lemma {:induction false} SpendUnfolds(t: Table, a: Account, due: int)
    requires due > 0
    ensures SpendOver(t, a, SPEND_ORDER, due, map[]) ==
      if Bal(t, a, MonthlyGrant) <= 0.0 then SpendOver(t, a, [Purchased], due, map[])
      else
        var take := Take(Bal(t, a, MonthlyGrant), due);
        if take as real > Bal(t, a, MonthlyGrant) then Insufficient
        else SpendOver(Debit(t, a, MonthlyGrant, take as real), a, [Purchased], due - take, map[MonthlyGrant := take])
  {
    assert SPEND_ORDER[1..] == [Purchased];
    var none: map<Pool, int> := map[];
    var take := Take(Bal(t, a, MonthlyGrant), due);
    assert none[MonthlyGrant := take] == map[MonthlyGrant := take];
  }

  /** The last pool settles the rest exactly when it holds all of it. */
  lemma {:induction false} LastPoolPays(t: Table, a: Account, due: int, breakdown: map<Pool, int>)
    requires due > 0
    ensures var out := SpendOver(t, a, [Purchased], due, breakdown);
      && (out.Spent? && out.remaining <= 0 <==> Bal(t, a, Purchased) >= due as real)
  {
    var avail := Bal(t, a, Purchased);
    if avail > 0.0 {
      var take := Take(avail, due);
      assert [Purchased][1..] == [];
      if avail >= due as real {
        RoundWhole(due);
      } else {
        assert take as real <= avail ==> take < due;
      }
    }
  }

  /** For every table and amount: exactly when a debit succeeds. */
  lemma {:induction false} SpendSucceedsIff(t: Table, a: Account, amount: real)
    ensures Spend(t, a, amount).Spent? <==>
      amount <= 0.0 || Covers(Bal(t, a, MonthlyGrant), Bal(t, a, Purchased), Round(amount))
  {
    var due := Round(amount);
    if amount > 0.0 && due > 0 {
      SpendUnfolds(t, a, due);
      var monthly := Bal(t, a, MonthlyGrant);
      if monthly <= 0.0 {
        LastPoolPays(t, a, due, map[]);
        RoundMonotone(monthly, 0.0);
        RoundWhole(0);
      } else {
        var take := Take(monthly, due);
        RoundMonotone(0.0, monthly);
        RoundWhole(0);
        if monthly >= due as real {
          RoundWhole(due);
        } else if take as real <= monthly {
          RoundMonotone(monthly, due as real);
          RoundWhole(due);
          var u := Debit(t, a, MonthlyGrant, take as real);
          assert Bal(u, a, Purchased) == Bal(t, a, Purchased);
          assert due - take > 0;
          LastPoolPays(u, a, due - take, map[MonthlyGrant := take]);
        }
      }
    }
  }

  /**
    For every table and amount: a successful debit takes exactly the rounded
    amount, reports what each pool paid, overdraws nothing and touches nothing else.
   */
  lemma {:induction false} SpendTakesExactly(t: Table, a: Account, amount: real)
    requires NonNegative(t) && Spend(t, a, amount).Spent?
    ensures var out := Spend(t, a, amount);
      && Spendable(t, a) - Spendable(out.table, a) == Due(amount) as real
      && NonNegative(out.table)
      && out.table.Keys == t.Keys
      && (forall p :: Bal(t, a, p) - Bal(out.table, a, p) == Taken(out.breakdown, p) as real)
      && (forall b, p :: b != a || p !in SPEND_ORDER ==> Bal(out.table, b, p) == Bal(t, b, p))
  {
    if amount > 0.0 {
      var due := Round(amount);
      RoundMonotone(0.0, amount);
      RoundWhole(0);
      SpendOverConserves(t, a, SPEND_ORDER, due, map[], SpendOver(t, a, SPEND_ORDER, due, map[]));
      SpendOverFrame(t, a, SPEND_ORDER, due, map[]);
      SpendOverNonNegative(t, a, SPEND_ORDER, due, map[]);
      forall p {
        SpendOverBreakdown(t, a, SPEND_ORDER, due, map[], p);
      }
      TotalOfSpendOrder(t, a);
      TotalOfSpendOrder(Spend(t, a, amount).table, a);
    }
  }

  lemma {:induction false} TotalOfSpendOrder(t: Table, a: Account)
    ensures Total(t, a, SPEND_ORDER) == Spendable(t, a)
  {
    assert SPEND_ORDER[1..] == [Purchased] && [Purchased][1..] == [];
    assert Total(t, a, []) == 0.0;
    assert Total(t, a, [Purchased]) == Bal(t, a, Purchased);
  }

  /** Purchased credit is touched only once less than half a unit of monthly credit is left. */
  lemma {:induction false} MonthlyFirst(t: Table, a: Account, amount: real)
    requires Spend(t, a, amount).Spent?
    requires Bal(Spend(t, a, amount).table, a, Purchased) != Bal(t, a, Purchased)
    ensures var left := Bal(Spend(t, a, amount).table, a, MonthlyGrant);
      left <= 0.5 && (OnGrid(Bal(t, a, MonthlyGrant)) ==> left <= 0.0)
  {
    var due := Round(amount);
    SpendUnfolds(t, a, due);
    var monthly := Bal(t, a, MonthlyGrant);
    if monthly > 0.0 {
      var take := Take(monthly, due);
      if monthly >= due as real {
        RoundWhole(due);
      } else {
        SpendOverFrame(Debit(t, a, MonthlyGrant, take as real), a, [Purchased], due - take, map[MonthlyGrant := take]);
      }
    } else {
      SpendOverFrame(t, a, [Purchased], due, map[]);
    }
  }

  /** On grid balances a debit succeeds exactly when the spendable credit covers it. */
  lemma {:induction false} SpendOnGridIff(t: Table, a: Account, amount: real)
    requires NonNegative(t) && OnGrid(Bal(t, a, MonthlyGrant)) && OnGrid(Bal(t, a, Purchased))
    ensures Spend(t, a, amount).Spent? <==> amount <= 0.0 || Spendable(t, a) >= Round(amount) as real
  {
    SpendSucceedsIff(t, a, amount);
    RoundGrid(Bal(t, a, MonthlyGrant));
  }

  /** A debit of a whole amount keeps a grid table on the grid. */
  lemma {:induction false} SpendKeepsGrid(t: Table, a: Account, amount: real, b: Account, p: Pool)
    requires NonNegative(t) && Spend(t, a, amount).Spent? && OnGrid(Bal(t, b, p))
    ensures OnGrid(Bal(Spend(t, a, amount).table, b, p))
  {
    SpendTakesExactly(t, a, amount);
    var out := Spend(t, a, amount);
    if b == a && p in SPEND_ORDER {
      RoundWhole(Taken(out.breakdown, p));
      GridSum(Bal(t, a, p), Taken(out.breakdown, p) as real);
    }
  }

  /** Off the grid a covered debit can be refused: 0.6 units of monthly credit round up to 1. */
  lemma {:induction false} CoveredButRefused(a: Account)
    ensures var t: Table := map[(a, MonthlyGrant) := 0.6, (a, Purchased) := 5.0];
      Spendable(t, a) >= 2.0 && Spend(t, a, 2.0) == Insufficient
  {
    var t: Table := map[(a, MonthlyGrant) := 0.6, (a, Purchased) := 5.0];
    RoundIsUnique(0.6, 1);
    RoundWhole(2);
    SpendSucceedsIff(t, a, 2.0);
  }
}
