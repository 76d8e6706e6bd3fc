/**
  Health of contributed API keys: failures lower a score that nothing raises, and
  an offline verdict is sticky because it pushes the score below its own threshold.
 */
module KeyHealth {
  import opened Collections
  import opened Money
  import opened LockPlans
  import opened Store
  import opened PoolStore

  datatype Verdict = Healthy | Degraded | Offline | Unhealthy
  datatype Event = KeyFailure | BalanceExhausted | Other

  datatype Health = Health(score: real, failures: nat, exhausted: nat, verdict: Verdict)

  /** What an evaluation observes besides the row: recent rate limiting and mean latency. */
  datatype Traffic = Traffic(rateLimitHits: int, latencyMs: real)

  type Rows = map<KeyId, Health>

  const OFFLINE_THRESHOLD := 0.3
  const DEGRADED_THRESHOLD := 0.5
  const FRESH := Health(1.0, 0, 0, Healthy)

  function Row(rows: Rows, k: KeyId): Health {
    if k in rows then rows[k] else FRESH
  }

  function AfterEvent(h: Health, event: Event): Health {
    match event
    case KeyFailure =>
      var score := Max(0.0, h.score - 0.15);
      Health(score, h.failures + 1, h.exhausted, if score >= 0.5 then Degraded else Unhealthy)
    case BalanceExhausted => h.(exhausted := h.exhausted + 1, verdict := Healthy)
    case Other => h.(verdict := Healthy)
  }

  function VerdictOfRow(h: Health): Verdict {
    if h.verdict == Offline || h.score < OFFLINE_THRESHOLD then Offline
    else if h.verdict == Unhealthy || h.verdict == Degraded || h.score < DEGRADED_THRESHOLD then
      if h.score >= OFFLINE_THRESHOLD then Degraded else Unhealthy
    else Healthy
  }

  /** One minus failures over recorded events, in units of 0.0001. */
  function SuccessRate(h: Health): int {
    Round(10000.0 - 10000.0 * h.failures as real / (h.failures + h.exhausted + 10) as real)
  }

  function EvaluatedVerdict(h: Health, forceOffline: bool, t: Traffic): Verdict {
    var v := VerdictOfRow(h);
    if forceOffline || t.rateLimitHits >= 5 then Offline
    else if (t.latencyMs > 5000.0 || SuccessRate(h) < 8500) && v == Healthy then Degraded
    else v
  }

  function Evaluated(h: Health, forceOffline: bool, t: Traffic): Health {
    var v := EvaluatedVerdict(h, forceOffline, t);
    h.(verdict := v,
       score := if v == Offline then Min(h.score, OFFLINE_THRESHOLD - 0.01)
                else if v == Degraded then Min(h.score, DEGRADED_THRESHOLD)
                else h.score)
  }

  // ---- runs

  datatype Op =
    | Record(k: KeyId, event: Event, traffic: Traffic)
    | Evaluate(k: KeyId, traffic: Traffic)

  /** Recording an event evaluates the key at once, forced offline after a key failure. */
  function Step(rows: Rows, op: Op): Rows {
    match op
    case Record(k, event, t) => rows[k := Evaluated(AfterEvent(Row(rows, k), event), event == KeyFailure, t)]
    case Evaluate(k, t) => rows[k := Evaluated(Row(rows, k), false, t)]
  }

  function Run(rows: Rows, ops: seq<Op>): Rows {
    if |ops| == 0 then rows else Step(Run(rows, ops[..|ops| - 1]), ops[|ops| - 1])
  }

  lemma {:induction false} RunsOn(rows: Rows, ops: seq<Op>, op: Op)
    ensures Run(rows, []) == rows && Run(rows, ops + [op]) == Step(Run(rows, ops), op)
  {
    assert (ops + [op])[..|ops|] == ops;
  }

  predicate Scored(rows: Rows) {
    forall k <- rows :: 0.0 <= rows[k].score <= 1.0
  }

  /** Failed for good: every evaluation of this row says offline. */
  predicate Down(rows: Rows, k: KeyId) {
    k in rows && rows[k].score < OFFLINE_THRESHOLD
  }

  /** Evaluation reports healthy, degraded or offline; its fourth verdict is never reached. */
  lemma {:induction false} NeverUnhealthy(h: Health, forceOffline: bool, t: Traffic)
    ensures EvaluatedVerdict(h, forceOffline, t) != Unhealthy
  {
  }

  lemma {:induction false} StepLowers(rows: Rows, op: Op, k: KeyId)
    requires Scored(rows)
    ensures Scored(Step(rows, op))
    ensures Row(Step(rows, op), k).score <= Row(rows, k).score
    ensures rows.Keys <= Step(rows, op).Keys
  {
  }

  /** Over every run of events and evaluations no key's score rises. */
  lemma {:induction false} ScoreNeverRises(rows: Rows, ops: seq<Op>, k: KeyId)
    requires Scored(rows)
    ensures Scored(Run(rows, ops)) && Row(Run(rows, ops), k).score <= Row(rows, k).score
    ensures rows.Keys <= Run(rows, ops).Keys
  {
    if |ops| > 0 {
      ScoreNeverRises(rows, ops[..|ops| - 1], k);
      StepLowers(Run(rows, ops[..|ops| - 1]), ops[|ops| - 1], k);
    }
  }

  lemma {:induction false} DownIsForever(rows: Rows, k: KeyId, ops: seq<Op>, t: Traffic)
    requires Scored(rows) && Down(rows, k)
    ensures Down(Run(rows, ops), k) && EvaluatedVerdict(Row(Run(rows, ops), k), false, t) == Offline
  {
    ScoreNeverRises(rows, ops, k);
  }

  /**
    A key that has failed once is offline at every later evaluation, whatever
    events and traffic come after the failure.
   */
  lemma {:induction false} FailureIsAbsorbing(rows: Rows, before: seq<Op>, k: KeyId, t: Traffic, after: seq<Op>,
                                              traffic: Traffic)
    requires Scored(rows)
    ensures var later := Run(Step(Run(rows, before), Record(k, KeyFailure, t)), after);
      Down(later, k) && EvaluatedVerdict(Row(later, k), false, traffic) == Offline
  {
    ScoreNeverRises(rows, before, k);
    StepLowers(Run(rows, before), Record(k, KeyFailure, t), k);
    DownIsForever(Step(Run(rows, before), Record(k, KeyFailure, t)), k, after, traffic);
  }

  /** Five rate-limit hits in one hour have the same effect as a failure: there is no way back. */
  lemma {:induction false} RateLimitIsAbsorbing(rows: Rows, k: KeyId, t: Traffic, after: seq<Op>, traffic: Traffic)
    requires Scored(rows) && t.rateLimitHits >= 5
    ensures EvaluatedVerdict(Row(Run(Step(rows, Evaluate(k, t)), after), k), false, traffic) == Offline
  {
    StepLowers(rows, Evaluate(k, t), k);
    DownIsForever(Step(rows, Evaluate(k, t)), k, after, traffic);
  }

  /**
    Exactly what keeps a key in service: an evaluation finds a scored key offline
    iff its score or stored verdict says so, it is rate limited, or it is forced.
   */
  lemma {:induction false} OfflineIff(h: Health, forceOffline: bool, t: Traffic)
    ensures Evaluated(h, forceOffline, t).score < OFFLINE_THRESHOLD <==>
      forceOffline || t.rateLimitHits >= 5 || h.verdict == Offline || h.score < OFFLINE_THRESHOLD
    ensures Evaluated(h, forceOffline, t).score < OFFLINE_THRESHOLD
        <==> Evaluated(h, forceOffline, t).verdict == Offline
  {
  }

  lemma {:induction false} ShareIff(failures: nat, events: nat, share: real)
    requires events > 0 && share * events as real == 10000.0 * failures as real
    ensures 2.0 * share <= 3001.0 <==> 20000 * failures <= 3001 * events
  {
    var n := events as real;
    assert (2.0 * share) * n == (20000 * failures) as real;
    assert 3001.0 * n == (3001 * events) as real;
    if 2.0 * share <= 3001.0 {
      Multiplied(2.0 * share, 3001.0, n);
    } else {
      StrictlyMultiplied(3001.0, 2.0 * share, n);
    }
  }

  /** 8499.5 rounds to the even 8500, and nothing below it does. */
  lemma {:induction false} RoundsEnough(x: real)
    ensures Round(x) >= 8500 <==> x >= 8499.5
  {
    RoundIsUnique(8499.5, 8500);
    if x >= 8499.5 { RoundMonotone(8499.5, x); }
  }

  /** A success rate passes, rounded to four decimals, exactly when failures are this few among the events. */
  lemma {:induction false} EnoughSuccessIff(h: Health)
    ensures SuccessRate(h) >= 8500 <==> 20000 * h.failures <= 3001 * (h.failures + h.exhausted + 10)
  {
    var events := h.failures + h.exhausted + 10;
    var share := 10000.0 * h.failures as real / events as real;
    assert share * events as real == 10000.0 * h.failures as real;
    ShareIff(h.failures, events, share);
    RoundsEnough(10000.0 - share);
  }

  lemma {:induction false} Multiplied(x: real, y: real, c: real)
    requires x <= y && c >= 0.0
    ensures x * c <= y * c
  {
    assert (y - x) * c >= 0.0;
  }

  lemma {:induction false} StrictlyMultiplied(x: real, y: real, c: real)
    requires x < y && c > 0.0
    ensures x * c < y * c
  {
    assert (y - x) * c > 0.0;
  }

  /**
    Exactly what an evaluation reports: offline when forced, rate limited, stored as
    offline or scored below 0.3; else degraded when stored as degraded or unhealthy,
    scored below 0.5, slow, or failing too often; else healthy. The score is capped
    accordingly, and the counts are kept.
   */
  lemma {:induction false} EvaluationIs(h: Health, forceOffline: bool, t: Traffic)
    ensures var e := Evaluated(h, forceOffline, t);
      var down := forceOffline || t.rateLimitHits >= 5 || h.verdict == Offline || h.score < 0.3;
      var weak := h.verdict == Degraded || h.verdict == Unhealthy || h.score < 0.5 || t.latencyMs > 5000.0
                  || 20000 * h.failures > 3001 * (h.failures + h.exhausted + 10);
      && e.failures == h.failures && e.exhausted == h.exhausted
      && (down ==> e.verdict == Offline && e.score == Min(h.score, 0.29))
      && (!down && weak ==> e.verdict == Degraded && e.score == Min(h.score, 0.5))
      && (!down && !weak ==> e.verdict == Healthy && e.score == h.score)
  {
    EnoughSuccessIff(h);
  }

  /** A failure costs 0.15 and puts the key offline at once; other events only count and clear the stored verdict. */
  lemma {:induction false} EventIs(rows: Rows, k: KeyId, event: Event, t: Traffic)
    requires Scored(rows)
    ensures var (h, e) := (Row(rows, k), Row(Step(rows, Record(k, event, t)), k));
      && (event == KeyFailure ==>
            && e.verdict == Offline && e.failures == h.failures + 1 && e.exhausted == h.exhausted
            && e.score == Min(0.29, Max(0.0, h.score - 0.15)))
      && (event != KeyFailure ==>
            && e.failures == h.failures
            && e.exhausted == h.exhausted + (if event == BalanceExhausted then 1 else 0)
            && (t.rateLimitHits < 5 && h.score >= 0.5 && t.latencyMs <= 5000.0
                && 20000 * e.failures <= 3001 * (e.failures + e.exhausted + 10) ==>
                  e.verdict == Healthy && e.score == h.score))
      && (forall other :: other != k ==> Row(Step(rows, Record(k, event, t)), other) == Row(rows, other))
  {
    EvaluationIs(AfterEvent(Row(rows, k), event), event == KeyFailure, t);
  }

  /** A scheduled evaluation forces nothing: a key in good order stays as it is, and other keys are not touched. */
  lemma {:induction false} ScheduledIs(rows: Rows, k: KeyId, t: Traffic)
    ensures var (h, e) := (Row(rows, k), Row(Step(rows, Evaluate(k, t)), k));
      && (e.verdict == Offline <==> t.rateLimitHits >= 5 || h.verdict == Offline || h.score < 0.3)
      && (h.verdict == Healthy && h.score >= 0.5 && t == Traffic(0, 0.0) && h.failures == 0 ==> e == h)
      && (forall other :: other != k ==> Row(Step(rows, Evaluate(k, t)), other) == Row(rows, other))
  {
    EvaluationIs(Row(rows, k), false, t);
  }

  /** The two numbers an event keeps, and what it does to the score, before any evaluation. */
  lemma {:induction false} AfterEventIs(h: Health, event: Event)
    ensures var e := AfterEvent(h, event);
      && (e.score == if event == KeyFailure then Max(0.0, h.score - 0.15) else h.score)
      && (e.verdict == Healthy <==> event != KeyFailure)
      && (event == KeyFailure ==> (e.verdict == Degraded <==> h.score >= 0.65) && e.verdict in {Degraded, Unhealthy})
  {
  }

  // ---- the table, updated in place

  class KeyHealthTable {
    var rows: Rows

    constructor ()
      ensures rows == map[]
    {
      rows := map[];
    }

    method RecordKeyHealthEvent(k: KeyId, event: Event)
      modifies this
      ensures rows == old(rows)[k := AfterEvent(Row(old(rows), k), event)]
    {
      var failures, exhausted, score := 0, 0, 1.0;
      if k in rows {
        failures, exhausted, score := rows[k].failures, rows[k].exhausted, rows[k].score;
      }
      var verdict := Healthy;
      if event == KeyFailure {
        failures := failures + 1;
        score := Max(0.0, score - 0.15);
        verdict := if score >= 0.5 then Degraded else Unhealthy;
      } else if event == BalanceExhausted {
        exhausted := exhausted + 1;
      }
      rows := rows[k := Health(score, failures, exhausted, verdict)];
    }

    method EvaluateKeyHealth(k: KeyId, forceOffline: bool, t: Traffic) returns (h: Health)
      modifies this
      ensures h == Evaluated(Row(old(rows), k), forceOffline, t)
      ensures rows == old(rows)[k := h]
    {
      var row := if k in rows then rows[k] else FRESH;
      var verdict := VerdictOfRow(row);
      if forceOffline || t.rateLimitHits >= 5 {
        verdict := Offline;
      } else if t.latencyMs > 5000.0 || SuccessRate(row) < 8500 {
        verdict := if verdict == Healthy then Degraded else verdict;
      }
      var score := row.score;
      if verdict == Offline {
        score := Min(score, OFFLINE_THRESHOLD - 0.01);
      } else if verdict == Degraded {
        score := Min(score, DEGRADED_THRESHOLD);
      }
      h := Health(score, row.failures, row.exhausted, verdict);
      rows := rows[k := h];
    }

    /** Only a key failure, never an exhausted balance, forfeits the contributor's plans. */
    method RecordKeyEvent(store: PoolStore, k: KeyId, event: Event, t: Traffic) returns (h: Health)
      modifies this, store
      ensures rows == Step(old(rows), Record(k, event, t))
      ensures h == rows[k]
      ensures store.Contents() ==
        if event == KeyFailure then ForfeitKey(old(store.Contents()), k, |old(store.installments)|)
        else old(store.Contents())
    {
      RecordKeyHealthEvent(k, event);
      h := EvaluateKeyHealth(k, event == KeyFailure, t);
      if event == KeyFailure {
        store.ForfeitInstallmentsForKeyFailure(k);
      }
    }
  }
}
