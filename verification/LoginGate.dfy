/**
  The login gate: a sliding-window limit on failed logins. The stored list is
  pruned at every check; the limit is proved about the full, unpruned history.
 */
module LoginGate {

  type Identity = string

  const FAIL_WINDOW := 300.0
  const FAIL_LIMIT := 8

  /** A login attempt: when it is checked, when a failure would be stamped, and whether it matches an account. */
  datatype Attempt = Attempt(check: real, stamp: real, matches: bool)

  /** The failures still inside the window that ends now. */
  function Recent(times: seq<real>, now: real): seq<real> {
    if |times| == 0 then []
    else Recent(times[..|times| - 1], now) + if now - times[|times| - 1] < FAIL_WINDOW then [times[|times| - 1]] else []
  }

  predicate Blocked(stored: seq<real>, check: real) {
    |Recent(stored, check)| >= FAIL_LIMIT
  }

  /** What an attempt leaves stored for its identity. */
  function AfterAttempt(stored: seq<real>, a: Attempt): seq<real> {
    var hits := Recent(stored, a.check);
    if |hits| >= FAIL_LIMIT then hits else if a.matches then [] else hits + [a.stamp]
  }

  function Stored(h: seq<Attempt>): seq<real> {
    if |h| == 0 then [] else AfterAttempt(Stored(h[..|h| - 1]), h[|h| - 1])
  }

  // ---- the reference: every failure since the last success, never pruned

  function Failures(h: seq<Attempt>): seq<real> {
    if |h| == 0 then []
    else
      var before := Failures(h[..|h| - 1]);
      var a := h[|h| - 1];
      if Blocked(Stored(h[..|h| - 1]), a.check) then before else if a.matches then [] else before + [a.stamp]
  }

  /** The clock never runs back. */
  predicate Timely(h: seq<Attempt>) {
    && (forall i :: 0 <= i < |h| ==> h[i].check <= h[i].stamp)
    && (forall i :: 0 < i < |h| ==> h[i - 1].stamp <= h[i].check)
  }

  predicate Ascending(times: seq<real>) {
    forall i, j :: 0 <= i < j < |times| ==> times[i] <= times[j]
  }

  /** No window of 300 seconds, wherever it starts, holds more failures than the limit. */
  predicate Limited(times: seq<real>) {
    forall i, j :: 0 <= i <= j < |times| && times[j] - times[i] < FAIL_WINDOW ==> j - i < FAIL_LIMIT
  }

  /** The stored list is the end of the history, and nothing dropped can matter at or after the clock. */
  predicate Represents(stored: seq<real>, history: seq<real>, clock: real) {
    && |stored| <= |history|
    && stored == history[|history| - |stored|..]
    && (forall i :: 0 <= i < |history| - |stored| ==> clock - history[i] >= FAIL_WINDOW)
    && Ascending(history)
    && (forall t <- history :: t <= clock)
  }

  /** What is kept is an end of the list: all before it is outside the window, all of it inside. */
  predicate Splits(times: seq<real>, kept: seq<real>, now: real) {
    && |kept| <= |times|
    && kept == times[|times| - |kept|..]
    && (forall i :: 0 <= i < |times| - |kept| ==> now - times[i] >= FAIL_WINDOW)
    && (forall i :: |times| - |kept| <= i < |times| ==> now - times[i] < FAIL_WINDOW)
  }

  lemma {:induction false} SplitGrows(times: seq<real>, kept: seq<real>, t: real, now: real)
    requires Splits(times, kept, now) && now - t < FAIL_WINDOW
    ensures Splits(times + [t], kept + [t], now)
  {
  }

  lemma {:induction false} SplitEnds(times: seq<real>, kept: seq<real>, t: real, now: real)
    requires Splits(times, kept, now) && now - t >= FAIL_WINDOW && Ascending(times + [t])
    ensures kept == [] && Splits(times + [t], [], now)
  {
    if |times| > 0 { assert (times + [t])[|times| - 1] <= (times + [t])[|times|]; }
  }

  lemma {:induction false} RecentSplits(times: seq<real>, now: real, kept: seq<real>)
    requires Ascending(times) && kept == Recent(times, now)
    ensures Splits(times, kept, now)
    decreases |times|
  {
    if |times| > 0 {
      var init := times[..|times| - 1];
      var last := times[|times| - 1];
      assert times == init + [last];
      RecentSplits(init, now, Recent(init, now));
      if now - last < FAIL_WINDOW {
        SplitGrows(init, Recent(init, now), last, now);
      } else {
        SplitEnds(init, Recent(init, now), last, now);
      }
    }
  }

  lemma {:induction false} RecentConcat(past: seq<real>, times: seq<real>, now: real)
    ensures Recent(past + times, now) == Recent(past, now) + Recent(times, now)
  {
    if |times| == 0 {
      assert past + times == past;
    } else {
      assert (past + times)[..|past + times| - 1] == past + times[..|times| - 1];
      RecentConcat(past, times[..|times| - 1], now);
    }
  }

  lemma {:induction false} OldIsNotRecent(times: seq<real>, now: real)
    requires forall i :: 0 <= i < |times| ==> now - times[i] >= FAIL_WINDOW
    ensures Recent(times, now) == []
  {
    if |times| > 0 { OldIsNotRecent(times[..|times| - 1], now); }
  }

  /** A pruned list answers as the full history would. */
  lemma {:induction false} PrunedAnswers(stored: seq<real>, history: seq<real>, clock: real, now: real)
    requires Represents(stored, history, clock) && clock <= now
    ensures Recent(stored, now) == Recent(history, now)
  {
    var cut := |history| - |stored|;
    assert history == history[..cut] + stored;
    RecentConcat(history[..cut], stored, now);
    OldIsNotRecent(history[..cut], now);
  }

  /** Pruning further keeps a faithful end of the history. */
  lemma {:induction false} PruningRepresents(stored: seq<real>, history: seq<real>, clock: real, now: real)
    requires Represents(stored, history, clock) && clock <= now
    ensures Represents(Recent(stored, now), history, now)
  {
    PrunedAnswers(stored, history, clock, now);
    RecentSplits(history, now, Recent(history, now));
  }

  /** Fewer failures than the limit in the window ending at the check leave room for one more. */
  lemma {:induction false} RoomForOne(stored: seq<real>, history: seq<real>, check: real, stamp: real)
    requires Represents(stored, history, check) && Limited(history) && check <= stamp && |stored| < FAIL_LIMIT
    ensures Represents(stored + [stamp], history + [stamp], stamp) && Limited(history + [stamp])
  {
    var more := history + [stamp];
    assert stored + [stamp] == more[|more| - |stored + [stamp]|..];
    forall t <- more ensures t <= stamp {
      assert t == stamp || t in history;
    }
    forall i, j | 0 <= i < j < |more| ensures more[i] <= more[j] {
      if j == |history| { assert more[i] in history; }
    }
  }

  lemma {:induction false} Later(stored: seq<real>, history: seq<real>, clock: real, now: real)
    requires Represents(stored, history, clock) && clock <= now
    ensures Represents(stored, history, now)
  {
  }

  function Clock(h: seq<Attempt>): real
    requires |h| > 0
  {
    h[|h| - 1].stamp
  }

  lemma {:induction false} RunRepresents(h: seq<Attempt>)
    requires Timely(h) && |h| > 0
    ensures Represents(Stored(h), Failures(h), Clock(h)) && Limited(Failures(h))
  {
    var before := h[..|h| - 1];
    var a := h[|h| - 1];
    var clock := if |h| > 1 then Clock(before) else a.check;
    if |h| > 1 {
      assert h[|h| - 2].stamp <= a.check;
      RunRepresents(before);
    }
    PruningRepresents(Stored(before), Failures(before), clock, a.check);
    var hits := Recent(Stored(before), a.check);
    if |hits| >= FAIL_LIMIT {
      Later(hits, Failures(before), a.check, a.stamp);
    } else if !a.matches {
      RoomForOne(hits, Failures(before), a.check, a.stamp);
    }
  }

  /**
    Over every run of attempts of one identity, with a clock that never runs back:
    since the last success no 300-second window holds more than eight failures,
    and an attempt is refused exactly when the window ending at it holds eight.
   */
  lemma {:induction false} FailuresAreLimited(h: seq<Attempt>, a: Attempt)
    requires Timely(h) && (|h| > 0 ==> Clock(h) <= a.check)
    ensures Limited(Failures(h))
    ensures var past := Failures(h);
      forall i, j :: 0 <= i <= j < |past| && past[j] - past[i] < 300.0 ==> j - i < 8
    ensures Blocked(Stored(h), a.check) <==> Blocked(Failures(h), a.check)
  {
    if |h| > 0 {
      RunRepresents(h);
      PrunedAnswers(Stored(h), Failures(h), Clock(h), a.check);
    }
  }

  /** Eight failures are recent exactly when the eighth from the end is under 300 seconds old. */
  lemma {:induction false} BlockedIff(history: seq<real>, now: real)
    requires Ascending(history)
    ensures Blocked(history, now) <==> |history| >= 8 && now - history[|history| - 8] < 300.0
  {
    RecentSplits(history, now, Recent(history, now));
  }

  lemma {:induction false} FailuresAscend(h: seq<Attempt>)
    requires Timely(h)
    ensures Ascending(Failures(h))
  {
    if |h| > 0 { RunRepresents(h); }
  }

  /** What the gate answers, on the whole history: refused exactly when the eighth failure from the end is recent. */
  lemma {:induction false} RefusedIff(h: seq<Attempt>, a: Attempt)
    requires Timely(h) && (|h| > 0 ==> Clock(h) <= a.check)
    ensures var past := Failures(h);
      Blocked(Stored(h), a.check) <==> |past| >= 8 && a.check - past[|past| - 8] < 300.0
  {
    FailuresAreLimited(h, a);
    FailuresAscend(h);
    BlockedIff(Failures(h), a.check);
  }

  // ---- attempts of many identities interleaved

  type Table = map<Identity, seq<real>>

  /** All callers without an identity share one. */
  function FailKey(identity: Identity): Identity {
    if identity == "" then "unknown" else identity
  }

  /** Identities share a list only when they are the same, or both are unknown. */
  lemma {:induction false} SharedKeyIff(x: Identity, y: Identity)
    ensures FailKey(x) == FailKey(y) <==> x == y || (x in {"", "unknown"} && y in {"", "unknown"})
  {
  }

  function Lookup(t: Table, key: Identity): seq<real> {
    if key in t then t[key] else []
  }

  datatype Login = Login(identity: Identity, attempt: Attempt)

  /** One login attempt on the table: pruned when refused, grown on failure, dropped on success. */
  function AfterLogin(t: Table, e: Login): Table {
    var key := FailKey(e.identity);
    var hits := Recent(Lookup(t, key), e.attempt.check);
    if |hits| >= FAIL_LIMIT then t[key := hits]
    else if e.attempt.matches then t - {key}
    else t[key := hits + [e.attempt.stamp]]
  }

  function TableOf(run: seq<Login>): Table {
    if |run| == 0 then map[] else AfterLogin(TableOf(run[..|run| - 1]), run[|run| - 1])
  }

  /** One identity's attempts among all. */
  function Of(run: seq<Login>, key: Identity): seq<Attempt> {
    if |run| == 0 then []
    else
      var before := Of(run[..|run| - 1], key);
      if FailKey(run[|run| - 1].identity) == key then before + [run[|run| - 1].attempt] else before
  }

  lemma {:induction false} LookupAfter(t: Table, e: Login, key: Identity)
    ensures Lookup(AfterLogin(t, e), key) ==
      if key == FailKey(e.identity) then AfterAttempt(Lookup(t, key), e.attempt) else Lookup(t, key)
  {
  }

  /** What the table stores for an identity is what its own attempts alone would have stored. */
  lemma {:induction false} StoredAlone(run: seq<Login>, key: Identity)
    ensures Lookup(TableOf(run), key) == Stored(Of(run, key))
  {
    if |run| > 0 {
      var init := run[..|run| - 1];
      var e := run[|run| - 1];
      StoredAlone(init, key);
      LookupAfter(TableOf(init), e, key);
      if FailKey(e.identity) == key {
        assert (Of(init, key) + [e.attempt])[..|Of(init, key)|] == Of(init, key);
      }
    }
  }

  /** The clock never runs back over all attempts together. */
  predicate TimelyRun(run: seq<Login>) {
    && (forall i :: 0 <= i < |run| ==> run[i].attempt.check <= run[i].attempt.stamp)
    && (forall i, j :: 0 <= i < j < |run| ==> run[i].attempt.stamp <= run[j].attempt.check)
  }

  lemma {:induction false} TimelyAlone(run: seq<Login>, key: Identity, now: real)
    requires TimelyRun(run) && forall e <- run :: e.attempt.stamp <= now
    ensures Timely(Of(run, key)) && (|Of(run, key)| > 0 ==> Clock(Of(run, key)) <= now)
  {
    if |run| > 0 {
      var init := run[..|run| - 1];
      var e := run[|run| - 1];
      forall o <- init ensures o.attempt.stamp <= e.attempt.check {
        var i :| 0 <= i < |init| && init[i] == o;
        assert run[i] == o;
      }
      assert e in run;
      TimelyAlone(init, key, e.attempt.check);
      TimelyGrows(Of(init, key), e.attempt);
    }
  }

  lemma {:induction false} TimelyGrows(h: seq<Attempt>, a: Attempt)
    requires Timely(h) && a.check <= a.stamp && (|h| > 0 ==> Clock(h) <= a.check)
    ensures Timely(h + [a])
  {
  }

  /**
    Over every run of interleaved attempts of any identities: for each identity no
    300-second window since its last success holds more than eight failures, and its
    next attempt is refused exactly when the window ending at it holds eight.
   */
  lemma {:induction false} EveryIdentityIsLimited(run: seq<Login>, next: Login)
    requires TimelyRun(run + [next])
    ensures forall key :: Limited(Failures(Of(run, key)))
    ensures var key := FailKey(next.identity);
      Blocked(Lookup(TableOf(run), key), next.attempt.check) <==> Blocked(Failures(Of(run, key)), next.attempt.check)
  {
    assert TimelyRun(run) && forall e <- run :: e.attempt.stamp <= next.attempt.check by {
      forall i | 0 <= i < |run|
        ensures run[i].attempt.check <= run[i].attempt.stamp <= next.attempt.check
        ensures forall j :: i < j < |run| ==> run[i].attempt.stamp <= run[j].attempt.check
      {
        assert (run + [next])[i] == run[i] && (run + [next])[|run|] == next;
        forall j | i < j < |run| ensures run[i].attempt.stamp <= run[j].attempt.check {
          assert (run + [next])[j] == run[j];
        }
      }
    }
    forall key ensures Limited(Failures(Of(run, key))) && Timely(Of(run, key)) {
      TimelyAlone(run, key, next.attempt.check);
      FailuresAreLimited(Of(run, key), next.attempt);
    }
    StoredAlone(run, FailKey(next.identity));
    TimelyAlone(run, FailKey(next.identity), next.attempt.check);
    FailuresAreLimited(Of(run, FailKey(next.identity)), next.attempt);
  }

  // ---- the module-level table, pruned and appended to in place

  class Gate {
    var failures: Table

    ghost function For(key: Identity): seq<real>
      reads this
    {
      Lookup(failures, key)
    }

    constructor ()
      ensures failures == map[]
    {
      failures := map[];
    }

    method TooManyFailures(identity: Identity, now: real) returns (full: bool)
      modifies this
      ensures failures == old(failures)[FailKey(identity) := Recent(old(For(FailKey(identity))), now)]
      ensures full == Blocked(old(For(FailKey(identity))), now)
    {
      var key := FailKey(identity);
      var hits := Recent(if key in failures then failures[key] else [], now);
      failures := failures[key := hits];
      full := |hits| >= FAIL_LIMIT;
    }

    method RecordFailure(identity: Identity, now: real)
      modifies this
      ensures failures == old(failures)[FailKey(identity) := old(For(FailKey(identity))) + [now]]
    {
      var key := FailKey(identity);
      failures := failures[key := (if key in failures then failures[key] else []) + [now]];
    }

    method ClearFailures(identity: Identity)
      modifies this
      ensures failures == old(failures) - {FailKey(identity)}
    {
      failures := failures - {FailKey(identity)};
    }

    /** An unconfigured gate fails every attempt it does not refuse outright. */
    method IssueLogin(identity: Identity, configured: bool, a: Attempt) returns (granted: bool)
      modifies this
      ensures failures == AfterLogin(old(failures), Login(identity, a.(matches := configured && a.matches)))
      ensures granted <==> configured && a.matches && !Blocked(old(For(FailKey(identity))), a.check)
    {
      var full := TooManyFailures(identity, a.check);
      if full {
        return false;
      }
      if !configured {
        RecordFailure(identity, a.stamp);
        return false;
      }
      if !a.matches {
        RecordFailure(identity, a.stamp);
        return false;
      }
      ClearFailures(identity);
      granted := true;
    }
  }
}
