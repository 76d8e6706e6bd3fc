/**
  The fault pool: an append-only ledger whose balance is the rounded sum of its entries.
 */
module FaultLedger {
  import opened Money

  datatype Entry = Entry(credit: bool, amount: real, balanceAfter: int)

  /** Routing settings that a depleted pool overwrites; the take rate counts 0.0001s. */
  datatype Settings = Settings(takeRate: real, publicPoolPaused: bool, threshold: real)

  const TAKE_STEP := 200.0
  const TAKE_CAP := 2500.0

  function Signed(e: Entry): real {
    if e.credit then e.amount else -e.amount
  }

  function Raw(ledger: seq<Entry>): real {
    if |ledger| == 0 then 0.0 else Raw(ledger[..|ledger| - 1]) + Signed(ledger[|ledger| - 1])
  }

  function Balance(ledger: seq<Entry>): int {
    Round(Raw(ledger))
  }

  function CreditEntry(ledger: seq<Entry>, amount: real): seq<Entry> {
    if amount <= 0.0 then ledger
    else ledger + [Entry(true, amount, Round(Balance(ledger) as real + amount))]
  }

  function Disbursable(ledger: seq<Entry>, amount: real): real {
    if amount <= 0.0 then 0.0 else Max(0.0, Min(amount, Balance(ledger) as real))
  }

  function DebitEntry(ledger: seq<Entry>, amount: real): seq<Entry> {
    var paid := Disbursable(ledger, amount);
    if paid <= 0.0 then ledger
    else ledger + [Entry(false, paid, Round(Balance(ledger) as real - paid))]
  }

  /** A low balance raises the platform's take and pauses the public pool; nothing here resumes it. */
  function HandleDepletion(ledger: seq<Entry>, s: Settings): Settings {
    if Balance(ledger) as real >= s.threshold then s
    else s.(takeRate := Min(TAKE_CAP, Round(s.takeRate + TAKE_STEP) as real), publicPoolPaused := true)
  }

  /** A lock reward: what the pool can pay, then the shortfall booked as a platform credit. */
  function DisburseReward(ledger: seq<Entry>, reward: real): seq<Entry> {
    if reward <= 0.0 then ledger
    else
      var disbursed := Min(reward, Balance(ledger) as real);
      var paid := if disbursed > 0.0 then DebitEntry(ledger, disbursed) else ledger;
      CreditEntry(paid, Round(reward - disbursed) as real)
  }

  /** The settings after a reward, checked once for each of the two entries made. */
  function RewardSettings(ledger: seq<Entry>, reward: real, s: Settings): Settings {
    if reward <= 0.0 then s
    else
      var disbursed := Min(reward, Balance(ledger) as real);
      var paid := if disbursed > 0.0 then DebitEntry(ledger, disbursed) else ledger;
      var s1 := if disbursed > 0.0 then HandleDepletion(paid, s) else s;
      var shortfall := Round(reward - disbursed);
      if shortfall > 0 then HandleDepletion(CreditEntry(paid, shortfall as real), s1) else s1
  }

  /** What every ledger keeps: never more than half a unit under water. */
  predicate Solvent(ledger: seq<Entry>) {
    Raw(ledger) >= -0.5
  }

  predicate OnGridLedger(ledger: seq<Entry>) {
    && (forall e <- ledger :: OnGrid(e.amount))
    && forall i :: 0 <= i < |ledger| ==> ledger[i].balanceAfter as real == Raw(ledger[..i + 1])
  }

  lemma {:induction false} RawAppend(ledger: seq<Entry>, e: Entry)
    ensures Raw(ledger + [e]) == Raw(ledger) + Signed(e)
  {
    assert (ledger + [e])[..|ledger|] == ledger;
  }

  lemma {:induction false} SolventBalance(ledger: seq<Entry>)
    requires Solvent(ledger)
    ensures Balance(ledger) >= 0
  {
    RoundIsUnique(-0.5, 0);
    RoundMonotone(-0.5, Raw(ledger));
  }

  lemma {:induction false} CreditKeepsSolvent(ledger: seq<Entry>, amount: real)
    requires Solvent(ledger)
    ensures Solvent(CreditEntry(ledger, amount))
    ensures Raw(CreditEntry(ledger, amount)) == Raw(ledger) + Max(0.0, amount)
  {
    if amount > 0.0 {
      RawAppend(ledger, Entry(true, amount, Round(Balance(ledger) as real + amount)));
    }
  }

  /** A debit pays the lesser of what was asked and the reported balance, whatever that is. */
  lemma {:induction false} DebitKeepsSolvent(ledger: seq<Entry>, amount: real)
    requires Solvent(ledger)
    ensures Solvent(DebitEntry(ledger, amount))
    ensures Raw(ledger) - Raw(DebitEntry(ledger, amount)) == Max(0.0, Min(amount, Balance(ledger) as real))
  {
    SolventBalance(ledger);
    var paid := Disbursable(ledger, amount);
    if paid > 0.0 {
      RawAppend(ledger, Entry(false, paid, Round(Balance(ledger) as real - paid)));
    }
  }

  lemma {:induction false} RewardKeepsSolvent(ledger: seq<Entry>, reward: real)
    requires Solvent(ledger)
    ensures Solvent(DisburseReward(ledger, reward))
  {
    if reward > 0.0 {
      SolventBalance(ledger);
      var disbursed := Min(reward, Balance(ledger) as real);
      DebitKeepsSolvent(ledger, disbursed);
      var paid := if disbursed > 0.0 then DebitEntry(ledger, disbursed) else ledger;
      CreditKeepsSolvent(paid, Round(reward - disbursed) as real);
    }
  }

  lemma {:induction false} GridRaw(ledger: seq<Entry>)
    requires forall e <- ledger :: OnGrid(e.amount)
    ensures OnGrid(Raw(ledger)) && Balance(ledger) as real == Raw(ledger)
  {
    if |ledger| > 0 {
      var last := ledger[|ledger| - 1];
      assert last in ledger;
      GridRaw(ledger[..|ledger| - 1]);
      GridSum(Raw(ledger[..|ledger| - 1]), last.amount);
    } else {
      RoundWhole(0);
    }
    RoundGrid(Raw(ledger));
  }

  /** An entry that records the rounded balance it leaves. */
  function Recorded(ledger: seq<Entry>, credit: bool, amount: real): Entry {
    Entry(credit, amount, Round(if credit then Balance(ledger) as real + amount else Balance(ledger) as real - amount))
  }

  lemma {:induction false} RecordedIsRaw(ledger: seq<Entry>, e: Entry)
    requires OnGridLedger(ledger) && OnGrid(e.amount) && e == Recorded(ledger, e.credit, e.amount)
    ensures e.balanceAfter as real == Raw(ledger + [e])
  {
    GridRaw(ledger);
    RawAppend(ledger, e);
    GridSum(Raw(ledger), e.amount);
    RoundGrid(Raw(ledger) + Signed(e));
  }

  lemma {:induction false} AppendKeepsGrid(ledger: seq<Entry>, credit: bool, amount: real)
    requires OnGridLedger(ledger) && OnGrid(amount)
    ensures OnGridLedger(ledger + [Recorded(ledger, credit, amount)])
  {
    var e := Recorded(ledger, credit, amount);
    var more := ledger + [e];
    RecordedIsRaw(ledger, e);
    assert more[..|more|] == more;
    forall i | 0 <= i < |ledger|
      ensures more[i].balanceAfter as real == Raw(more[..i + 1])
    {
      assert more[..i + 1] == ledger[..i + 1];
    }
  }

  lemma {:induction false} CreditKeepsGrid(ledger: seq<Entry>, amount: real)
    requires OnGridLedger(ledger) && OnGrid(amount)
    ensures OnGridLedger(CreditEntry(ledger, amount))
  {
    if amount > 0.0 {
      AppendKeepsGrid(ledger, true, amount);
    }
  }

  lemma {:induction false} DebitKeepsGrid(ledger: seq<Entry>, amount: real)
    requires OnGridLedger(ledger) && OnGrid(amount)
    ensures OnGridLedger(DebitEntry(ledger, amount))
  {
    var paid := Disbursable(ledger, amount);
    RoundWhole(Balance(ledger));
    if paid > 0.0 {
      AppendKeepsGrid(ledger, false, paid);
    }
  }

  /** On the grid a debit lowers the reported balance by exactly what it pays. */
  lemma {:induction false} DebitReports(ledger: seq<Entry>, amount: real)
    requires Solvent(ledger) && OnGridLedger(ledger) && OnGrid(amount) && amount > 0.0
    ensures var out := DebitEntry(ledger, amount);
      && Solvent(out) && OnGridLedger(out)
      && Balance(ledger) >= 0
      && Balance(out) as real == Balance(ledger) as real - Min(amount, Balance(ledger) as real)
      && Disbursable(ledger, amount) == Min(amount, Balance(ledger) as real)
  {
    SolventBalance(ledger);
    DebitKeepsSolvent(ledger, amount);
    DebitKeepsGrid(ledger, amount);
    GridRaw(ledger);
    GridRaw(DebitEntry(ledger, amount));
  }

  lemma {:induction false} CreditReports(ledger: seq<Entry>, amount: real)
    requires Solvent(ledger) && OnGridLedger(ledger) && OnGrid(amount) && amount >= 0.0
    ensures var out := CreditEntry(ledger, amount);
      && Solvent(out) && OnGridLedger(out)
      && Balance(out) as real == Balance(ledger) as real + amount
  {
    CreditKeepsSolvent(ledger, amount);
    CreditKeepsGrid(ledger, amount);
    GridRaw(ledger);
    GridRaw(CreditEntry(ledger, amount));
  }

  lemma {:induction false} Shortfall(balance: int, reward: real)
    requires OnGrid(reward) && balance >= 0
    ensures Round(reward - Min(reward, balance as real)) as real == Max(0.0, reward - balance as real)
    ensures OnGrid(Min(reward, balance as real)) && OnGrid(Max(0.0, reward - balance as real))
  {
    RoundWhole(balance);
    RoundWhole(0);
    GridSum(reward, balance as real);
    RoundGrid(reward - balance as real);
  }

  /** On the grid, the two entries a reward makes: the pool pays what it has, the platform books the rest. */
  lemma {:induction false} RewardEntries(ledger: seq<Entry>, reward: real)
    requires OnGrid(reward) && reward > 0.0 && Balance(ledger) >= 0
    ensures var b := Balance(ledger) as real;
      DisburseReward(ledger, reward) ==
        if b <= 0.0 then CreditEntry(ledger, reward)
        else if reward <= b then DebitEntry(ledger, reward)
        else CreditEntry(DebitEntry(ledger, b), reward - b)
  {
    Shortfall(Balance(ledger), reward);
  }

  /**
    On the grid, paying a lock reward r out of a balance b reports |b - r| afterwards:
    b - r when the pool can pay, and the platform's shortfall r - b when it cannot.
   */
  lemma {:induction false} RewardLeavesDistance(ledger: seq<Entry>, reward: real)
    requires Solvent(ledger) && OnGridLedger(ledger) && OnGrid(reward) && reward > 0.0
    ensures var b := Balance(ledger) as real;
      var out := DisburseReward(ledger, reward);
      && OnGridLedger(out)
      && Balance(out) as real == (if reward <= b then b - reward else reward - b)
  {
    var b := Balance(ledger) as real;
    SolventBalance(ledger);
    RewardEntries(ledger, reward);
    RoundWhole(Balance(ledger));
    if b <= 0.0 {
      CreditReports(ledger, reward);
    } else if reward <= b {
      DebitReports(ledger, reward);
    } else {
      DebitReports(ledger, b);
      GridSum(reward, b);
      CreditReports(DebitEntry(ledger, b), reward - b);
    }
  }

  /** On the grid, what is disbursed and what the platform books add up to the reward. */
  lemma {:induction false} RewardIsCovered(ledger: seq<Entry>, reward: real)
    requires Solvent(ledger) && OnGrid(reward) && reward > 0.0
    ensures Disbursable(ledger, reward) + Round(reward - Disbursable(ledger, reward)) as real == reward
  {
    SolventBalance(ledger);
    Shortfall(Balance(ledger), reward);
  }
}
