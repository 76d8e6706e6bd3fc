/**
  Choosing keys for a task: list the keys that can serve it, sort them, and decide
  between one key, a relay, a split and a refusal.
 */
module Routing {
  import opened LockPlans
  import opened KeyHealth
  import opened Money

  /** When a key may be used: always, in a window of hours that may wrap past midnight, or in one that may not. */
  datatype Hours = Always | Window(first: int, last: int) | Plain(first: int, last: int)

  /** A registered key; an empty list of models is no restriction. */
  datatype KeyRow = KeyRow(
    id: KeyId, tos: string, vendor: string, hours: Hours, models: seq<string>, dailyCap: real, usedToday: real,
    sameOrg: bool, affinity: real, minPrice: real, freeSlots: int, weight: real, traffic: Traffic)

  /** What a key is wanted for: the model, the vendor found for it, the hour of day and the estimate. */
  datatype Ask = Ask(model: string, vendor: string, hour: int, estimate: real)

  datatype Candidate = Candidate(
    id: KeyId, platformDefault: bool, publicPool: bool, quota: real, modelMatch: bool, sameOrg: bool,
    affinity: real, minPrice: real, score: real, freeSlots: int, weight: real, verdict: Verdict)

  datatype Mode = Single | SameOrgSplit | Relay | ParallelSplit | Degrade | PublicPool | QueueReject

  datatype Decision = Decision(mode: Mode, keys: seq<Candidate>)

  const QUOTA_BUFFER := 1.3

  // ---- listing

  predicate TosAllowed(row: KeyRow) {
    row.tos == "self_host" || row.tos == "resale_allowed" || row.vendor == "self_host"
  }

  predicate InHours(hours: Hours, hour: int) {
    match hours
    case Always => true
    case Window(first, last) => if first <= last then first <= hour <= last else hour >= first || hour <= last
    case Plain(first, last) => first <= hour <= last
  }

  /** The model asked for, the default one, or no list at all. */
  predicate ModelMatch(models: seq<string>, model: string) {
    models == [] || model in models || "default" in models
  }

  /** The checks on terms of service, hours and model; a key of the right vendor takes any model. */
  predicate Fits(row: KeyRow, ask: Ask) {
    && TosAllowed(row)
    && InHours(row.hours, ask.hour)
    && (row.vendor == ask.vendor || ask.vendor == "self_host" || ModelMatch(row.models, ask.model))
  }

  function QuotaRemaining(row: KeyRow, estimate: real): real {
    if row.dailyCap > 0.0 then row.dailyCap - row.usedToday else estimate * 10.0
  }

  predicate Serves(row: KeyRow, h: Health, ask: Ask) {
    && Fits(row, ask)
    && h.verdict != Offline
    && !(row.dailyCap > 0.0 && QuotaRemaining(row, ask.estimate) < ask.estimate * QUOTA_BUFFER)
  }

  function AsCandidate(row: KeyRow, h: Health, ask: Ask): Candidate {
    Candidate(row.id, false, false, QuotaRemaining(row, ask.estimate), ModelMatch(row.models, ask.model), row.sameOrg,
              row.affinity, row.minPrice, h.score, row.freeSlots, row.weight, h.verdict)
  }

  function PlatformDefault(id: KeyId, estimate: real, weight: real): Candidate {
    Candidate(id, true, false, estimate * 100.0, true, true, 0.0, 0.0, 1.0, 999, weight, Healthy)
  }

  /** Health rows and candidates after visiting the given keys in order; fitting keys are evaluated. */
  function Listed(rows: Rows, keys: seq<KeyRow>, ask: Ask): (Rows, seq<Candidate>) {
    if |keys| == 0 then (rows, [])
    else
      var (before, found) := Listed(rows, keys[..|keys| - 1], ask);
      var row := keys[|keys| - 1];
      if !Fits(row, ask) then (before, found)
      else
        var h := Evaluated(Row(before, row.id), false, row.traffic);
        (before[row.id := h], if Serves(row, h, ask) then found + [AsCandidate(row, h, ask)] else found)
  }

  method ListSharedPoolKeys(table: KeyHealthTable, keys: seq<KeyRow>, ask: Ask, platform: KeyId, weight: real)
    returns (found: seq<Candidate>)
    modifies table
    ensures var (rows, contributed) := Listed(old(table.rows), keys, ask);
      table.rows == rows && found == contributed + [PlatformDefault(platform, ask.estimate, weight)]
  {
    found := [];
    for i := 0 to |keys|
      invariant (table.rows, found) == Listed(old(table.rows), keys[..i], ask)
    {
      assert keys[..i + 1][..i] == keys[..i];
      var row := keys[i];
      if Fits(row, ask) {
        var h := table.EvaluateKeyHealth(row.id, false, row.traffic);
        if h.verdict != Offline {
          var quota := if row.dailyCap > 0.0 then row.dailyCap - row.usedToday else ask.estimate * 10.0;
          if !(row.dailyCap > 0.0 && quota < ask.estimate * QUOTA_BUFFER) {
            found := found + [AsCandidate(row, h, ask)];
          }
        }
      }
    }
    assert keys[..|keys|] == keys;
    found := found + [PlatformDefault(platform, ask.estimate, weight)];
  }

  // ---- sorting

  function Flag(b: bool): real {
    if b then 1.0 else 0.0
  }

  function SortKey(c: Candidate, estimate: real): seq<real> {
    [ Flag(c.platformDefault), Flag(c.publicPool), -Flag(c.quota >= estimate * QUOTA_BUFFER), -Flag(c.modelMatch),
      -Flag(c.sameOrg), -c.affinity, c.minPrice, -c.score,
      -((if c.freeSlots > 0 then c.freeSlots else 0) as real), -c.weight ]
  }

  /** Tuple comparison, position by position. */
  predicate LexLe(x: seq<real>, y: seq<real>) {
    if |x| == 0 then true
    else if |y| == 0 then false
    else x[0] < y[0] || (x[0] == y[0] && LexLe(x[1..], y[1..]))
  }

  predicate Before(c: Candidate, d: Candidate, estimate: real) {
    LexLe(SortKey(c, estimate), SortKey(d, estimate))
  }

  type Order = (Candidate, Candidate) -> bool

  function RoutingOrder(estimate: real): Order {
    (c, d) => Before(c, d, estimate)
  }

  ghost predicate IsOrder(le: Order) {
    && (forall c, d :: le(c, d) || le(d, c))
    && (forall c, d, e :: le(c, d) && le(d, e) ==> le(c, e))
  }

  predicate Sorted(le: Order, s: seq<Candidate>) {
    forall i, j :: 0 <= i < j < |s| ==> le(s[i], s[j])
  }

  function Insert(le: Order, c: Candidate, s: seq<Candidate>): seq<Candidate> {
    if |s| == 0 then [c]
    else if le(s[|s| - 1], c) then s + [c]
    else Insert(le, c, s[..|s| - 1]) + [s[|s| - 1]]
  }

  /** A stable sort. */
  function SortBy(le: Order, s: seq<Candidate>): seq<Candidate> {
    if |s| == 0 then [] else Insert(le, s[|s| - 1], SortBy(le, s[..|s| - 1]))
  }

  lemma {:induction false} LexTotal(x: seq<real>, y: seq<real>)
    ensures LexLe(x, y) || LexLe(y, x)
  {
    if |x| > 0 && |y| > 0 { LexTotal(x[1..], y[1..]); }
  }

  lemma {:induction false} LexTransitive(x: seq<real>, y: seq<real>, z: seq<real>)
    requires LexLe(x, y) && LexLe(y, z)
    ensures LexLe(x, z)
  {
    if |x| > 0 && x[0] == y[0] == z[0] { LexTransitive(x[1..], y[1..], z[1..]); }
  }

  lemma {:induction false} RoutingOrderIsOrder(estimate: real)
    ensures IsOrder(RoutingOrder(estimate))
  {
    forall c, d ensures Before(c, d, estimate) || Before(d, c, estimate) {
      LexTotal(SortKey(c, estimate), SortKey(d, estimate));
    }
    forall c, d, e | Before(c, d, estimate) && Before(d, e, estimate) ensures Before(c, e, estimate) {
      LexTransitive(SortKey(c, estimate), SortKey(d, estimate), SortKey(e, estimate));
    }
  }

  lemma {:induction false} InsertHolds(le: Order, c: Candidate, s: seq<Candidate>)
    ensures multiset(Insert(le, c, s)) == multiset(s) + multiset{c}
  {
    if |s| > 0 {
      assert s == s[..|s| - 1] + [s[|s| - 1]];
      InsertHolds(le, c, s[..|s| - 1]);
    }
  }

  lemma {:induction false} InsertSorts(le: Order, c: Candidate, s: seq<Candidate>)
    requires IsOrder(le) && Sorted(le, s)
    ensures Sorted(le, Insert(le, c, s))
  {
    if |s| > 0 && !le(s[|s| - 1], c) {
      var last := s[|s| - 1];
      var init := s[..|s| - 1];
      InsertSorts(le, c, init);
      InsertHolds(le, c, init);
      var r := Insert(le, c, init);
      forall i | 0 <= i < |r| ensures le(r[i], last) {
        assert r[i] in multiset(r);
        assert r[i] == c || r[i] in init;
      }
    }
  }

  lemma {:induction false} SortSorts(le: Order, s: seq<Candidate>)
    requires IsOrder(le)
    ensures Sorted(le, SortBy(le, s))
    ensures multiset(SortBy(le, s)) == multiset(s)
    ensures |SortBy(le, s)| == |s|
  {
    if |s| > 0 {
      var init := s[..|s| - 1];
      var last := s[|s| - 1];
      SortSorts(le, init);
      InsertSorts(le, last, SortBy(le, init));
      InsertHolds(le, last, SortBy(le, init));
      assert s == init + [last];
    }
    assert |multiset(SortBy(le, s))| == |multiset(s)|;
  }

  // ---- filtering

  function Filter(f: Candidate -> bool, s: seq<Candidate>): seq<Candidate> {
    if |s| == 0 then [] else Filter(f, s[..|s| - 1]) + if f(s[|s| - 1]) then [s[|s| - 1]] else []
  }

  lemma {:induction false} FilterCounts(f: Candidate -> bool, s: seq<Candidate>, c: Candidate)
    ensures multiset(Filter(f, s))[c] == if f(c) then multiset(s)[c] else 0
  {
    if |s| > 0 {
      FilterCounts(f, s[..|s| - 1], c);
      assert s == s[..|s| - 1] + [s[|s| - 1]];
    }
  }

  lemma {:induction false} FilterMembers(f: Candidate -> bool, s: seq<Candidate>)
    ensures forall c :: c in Filter(f, s) <==> c in s && f(c)
  {
    if |s| > 0 {
      FilterMembers(f, s[..|s| - 1]);
      assert s == s[..|s| - 1] + [s[|s| - 1]];
    }
  }

  lemma {:induction false} FilterSorted(le: Order, f: Candidate -> bool, s: seq<Candidate>)
    requires Sorted(le, s)
    ensures Sorted(le, Filter(f, s))
  {
    if |s| > 0 {
      var init := s[..|s| - 1];
      var kept := Filter(f, init);
      FilterSorted(le, f, init);
      FilterMembers(f, init);
      forall i | 0 <= i < |kept| ensures le(kept[i], s[|s| - 1]) {
        assert kept[i] in init;
        var k :| 0 <= k < |init| && init[k] == kept[i];
        assert s[k] == kept[i];
      }
    }
  }

  /** Filtering a rearrangement keeps the same keys the same number of times. */
  lemma {:induction false} FilterPermutes(f: Candidate -> bool, s: seq<Candidate>, t: seq<Candidate>)
    requires multiset(s) == multiset(t)
    ensures multiset(Filter(f, s)) == multiset(Filter(f, t))
    ensures |Filter(f, s)| == |Filter(f, t)|
  {
    forall c ensures multiset(Filter(f, s))[c] == multiset(Filter(f, t))[c] {
      FilterCounts(f, s, c);
      FilterCounts(f, t, c);
    }
    assert multiset(Filter(f, s)) == multiset(Filter(f, t));
    assert |multiset(Filter(f, s))| == |multiset(Filter(f, t))|;
  }

  lemma {:induction false} FilterAll(f: Candidate -> bool, s: seq<Candidate>)
    requires forall c <- s :: f(c)
    ensures Filter(f, s) == s
  {
    if |s| > 0 { FilterAll(f, s[..|s| - 1]); }
  }

  // ---- deciding

  predicate PreferRelay(keys: seq<Candidate>, estimate: real) {
    || (exists c <- keys :: c.affinity >= 0.3 && c.quota >= estimate)
    || (|keys| >= 2 && exists c <- keys :: c.affinity > 0.1)
  }

  function UpToThree(keys: seq<Candidate>): seq<Candidate> {
    if |keys| <= 3 then keys else keys[..3]
  }

  function InService(c: Candidate): bool {
    c.verdict != Offline && c.verdict != Unhealthy
  }

  function IsDegraded(c: Candidate): bool {
    c.verdict == Degraded
  }

  function IsContributed(c: Candidate): bool {
    !c.platformDefault && !c.publicPool
  }

  function InSameOrg(c: Candidate): bool {
    c.sameOrg
  }

  function PublicKey(estimate: real, weight: real): Candidate {
    Candidate("public_pool_premium", false, true, estimate * 50.0, false, false, 0.0, 0.0, 0.0, 0, weight, Healthy)
  }

  /** The decision on sorted candidates of which at least one is in service. */
  function DecideAmong(sorted: seq<Candidate>, paused: bool, estimate: real): Decision
    requires |sorted| > 0
  {
    var contributed := Filter(IsContributed, sorted);
    if contributed == [] && paused then Decision(QueueReject, [])
    else
      DecideIn(if contributed != [] then contributed else sorted, estimate)
  }

  /** Up to three keys, in relay if that is preferred. */
  function Together(keys: seq<Candidate>, estimate: real, otherwise: Mode): Decision {
    Decision(if PreferRelay(keys, estimate) then Relay else otherwise, UpToThree(keys))
  }

  /** One key, a relay or a split, among the keys of the pool decided for. */
  function DecideIn(pool: seq<Candidate>, estimate: real): Decision
    requires |pool| > 0
  {
    var sameOrg := Filter(InSameOrg, pool);
    if |sameOrg| == 1 && |pool| == 1 then Decision(Single, [sameOrg[0]])
    else if |sameOrg| >= 2 then Together(sameOrg, estimate, SameOrgSplit)
    else if |pool| >= 2 then Together(pool, estimate, ParallelSplit)
    else Decision(Single, [pool[0]])
  }

  function Route(raw: seq<Candidate>, paused: bool, estimate: real, weight: real): Decision {
    var sorted := SortBy(RoutingOrder(estimate), Filter(InService, raw));
    if |sorted| > 0 then DecideAmong(sorted, paused, estimate)
    else
      var degraded := SortBy(RoutingOrder(estimate), Filter(IsDegraded, raw));
      if |degraded| > 0 then Decision(Degrade, [degraded[0]])
      else if !paused then Decision(PublicPool, [PublicKey(estimate, weight)])
      else Decision(QueueReject, [])
  }

  /** What listing guarantees: surviving contributors, none of them offline, then the platform's own key. */
  predicate IsListing(contributed: seq<Candidate>, platform: Candidate) {
    && (forall c <- contributed :: IsContributed(c) && InService(c))
    && platform.platformDefault && !platform.publicPool && platform.sameOrg && platform.verdict == Healthy
  }

  lemma {:induction false} ListingSorts(le: Order, contributed: seq<Candidate>, platform: Candidate)
    requires IsListing(contributed, platform) && IsOrder(le)
    ensures var raw := contributed + [platform];
      var sorted := SortBy(le, Filter(InService, raw));
      && Sorted(le, sorted)
      && multiset(sorted) == multiset(raw)
      && |sorted| == |raw|
  {
    var raw := contributed + [platform];
    FilterAll(InService, raw);
    SortSorts(le, raw);
  }

  /** The surviving contributors in sort order. */
  function Survivors(le: Order, contributed: seq<Candidate>, platform: Candidate): seq<Candidate> {
    Filter(IsContributed, SortBy(le, Filter(InService, contributed + [platform])))
  }

  lemma {:induction false} SurvivorsAre(le: Order, contributed: seq<Candidate>, platform: Candidate)
    requires IsListing(contributed, platform) && IsOrder(le)
    ensures var s := Survivors(le, contributed, platform);
      && Sorted(le, s)
      && multiset(s) == multiset(contributed)
      && |s| == |contributed|
  {
    ListingSorts(le, contributed, platform);
    var raw := contributed + [platform];
    var sorted := SortBy(le, Filter(InService, raw));
    FilterSorted(le, IsContributed, sorted);
    FilterPermutes(IsContributed, sorted, raw);
    FilterAll(IsContributed, contributed);
    assert raw[..|raw| - 1] == contributed;
    assert Filter(IsContributed, raw) == contributed;
  }

  /** The keys the decision is made among: same-organisation contributors when there are two, else all. */
  function Group(contributed: seq<Candidate>): seq<Candidate> {
    if |Filter(InSameOrg, contributed)| >= 2 then Filter(InSameOrg, contributed) else contributed
  }

  predicate IsFirst(le: Order, c: Candidate, group: seq<Candidate>) {
    c in group && forall d <- group :: le(c, d)
  }

  /** The first up to three keys of a sorted rearrangement of a group. */
  predicate PicksFrom(le: Order, keys: seq<Candidate>, group: seq<Candidate>) {
    && |keys| == (if |group| <= 3 then |group| else 3)
    && multiset(keys) <= multiset(group)
    && Sorted(le, keys)
    && (|keys| > 0 ==> IsFirst(le, keys[0], group))
    && (forall c, d :: c in keys && d in multiset(group) - multiset(keys) ==> le(c, d))
  }

  /** What comes after the first k of a sorted sequence is no better than any of them. */
  lemma {:induction false} RestIsLater(le: Order, s: seq<Candidate>, k: nat, c: Candidate, d: Candidate)
    requires Sorted(le, s) && k <= |s| && c in s[..k] && d in multiset(s) - multiset(s[..k])
    ensures le(c, d)
  {
    assert s == s[..k] + s[k..];
    assert d in multiset(s[k..]);
    var i :| 0 <= i < k && s[..k][i] == c;
    var j :| 0 <= j < |s[k..]| && s[k..][j] == d;
    assert s[i] == c && s[k + j] == d;
  }

  lemma {:induction false} FirstOfSorted(le: Order, s: seq<Candidate>, group: seq<Candidate>)
    requires Sorted(le, s) && IsOrder(le) && multiset(s) == multiset(group) && |s| > 0
    ensures IsFirst(le, s[0], group)
  {
    assert s[0] in multiset(group);
    forall d | d in group ensures le(s[0], d) {
      assert d in multiset(group);
      assert d in s;
    }
  }

  lemma {:induction false} SortedFirst(le: Order, s: seq<Candidate>, group: seq<Candidate>)
    requires IsOrder(le) && Sorted(le, s) && multiset(s) == multiset(group)
    ensures |s| == |group| && PicksFrom(le, UpToThree(s), group)
  {
    assert |multiset(s)| == |multiset(group)|;
    var k := if |s| > 3 then 3 else |s|;
    var keys := s[..k];
    assert UpToThree(s) == keys;
    assert s == keys + s[k..];
    if |s| > 0 { FirstOfSorted(le, s, group); }
    forall c, d | c in keys && d in multiset(group) - multiset(keys) ensures le(c, d) {
      RestIsLater(le, s, k, c, d);
    }
  }

  /** The decision among surviving contributors in sort order. */
  function Chosen(s: seq<Candidate>, estimate: real): Decision
    requires |s| > 0
  {
    var same := Filter(InSameOrg, s);
    if |same| >= 2 then Together(same, estimate, SameOrgSplit)
    else if |s| >= 2 then Together(s, estimate, ParallelSplit)
    else Decision(Single, s)
  }

  lemma {:induction false} DecideOnPlatform(sorted: seq<Candidate>, platform: Candidate, paused: bool, estimate: real)
    requires sorted == [platform] && platform.platformDefault && platform.sameOrg
    ensures DecideAmong(sorted, paused, estimate) ==
        if paused then Decision(QueueReject, []) else Decision(Single, [platform])
  {
    assert sorted[..0] == [] && Filter(IsContributed, sorted[..0]) == [];
    FilterAll(InSameOrg, sorted);
  }

  lemma {:induction false} DecideOnContributors(sorted: seq<Candidate>, paused: bool, estimate: real)
    requires |Filter(IsContributed, sorted)| > 0 && |sorted| > 0
    ensures DecideAmong(sorted, paused, estimate) == Chosen(Filter(IsContributed, sorted), estimate)
  {
    ChosenIs(Filter(IsContributed, sorted), estimate);
  }

  lemma {:induction false} ChosenIs(pool: seq<Candidate>, estimate: real)
    requires |pool| > 0
    ensures DecideIn(pool, estimate) == Chosen(pool, estimate)
  {
    var same := Filter(InSameOrg, pool);
    FilterShorter(InSameOrg, pool);
    if |pool| == 1 {
      OneOfOne(pool);
      assert pool == [pool[0]];
      assert DecideIn(pool, estimate) == Decision(Single, pool);
    } else if |same| >= 2 {
      assert DecideIn(pool, estimate) == Together(same, estimate, SameOrgSplit);
    } else {
      assert DecideIn(pool, estimate) == Together(pool, estimate, ParallelSplit);
    }
  }

  lemma {:induction false} RouteIs(contributed: seq<Candidate>, platform: Candidate, paused: bool, estimate: real,
                                   weight: real)
    requires IsListing(contributed, platform)
    ensures var s := Survivors(RoutingOrder(estimate), contributed, platform);
      && |s| == |contributed|
      && Route(contributed + [platform], paused, estimate, weight) ==
           if contributed != [] then Chosen(s, estimate)
           else if paused then Decision(QueueReject, [])
           else Decision(Single, [platform])
  {
    var le := RoutingOrder(estimate);
    RoutingOrderIsOrder(estimate);
    ListingSorts(le, contributed, platform);
    SurvivorsAre(le, contributed, platform);
    var sorted := SortBy(le, Filter(InService, contributed + [platform]));
    if contributed == [] {
      assert sorted[0] in multiset(contributed + [platform]);
      DecideOnPlatform(sorted, platform, paused, estimate);
    } else {
      DecideOnContributors(sorted, paused, estimate);
    }
  }

  lemma {:induction false} OneOfOne(s: seq<Candidate>)
    ensures |s| == 1 && |Filter(InSameOrg, s)| == 1 ==> Filter(InSameOrg, s) == s
  {
    if |s| == 1 { assert s[..0] == [] && Filter(InSameOrg, s[..0]) == []; }
  }

  /** What is chosen among surviving contributors, in terms of the unsorted survivors. */
  lemma {:induction false} ChosenStructure(le: Order, s: seq<Candidate>, contributed: seq<Candidate>, estimate: real)
    requires IsOrder(le) && Sorted(le, s) && multiset(s) == multiset(contributed) && |s| == |contributed| > 0
    ensures var d := Chosen(s, estimate);
      var group := Group(contributed);
      && PicksFrom(le, d.keys, group)
      && (d.mode == Single <==> |contributed| == 1)
      && (|contributed| >= 2 ==>
            d.mode == if PreferRelay(group, estimate) then Relay
                      else if |Filter(InSameOrg, contributed)| >= 2 then SameOrgSplit else ParallelSplit)
  {
    FilterPermutes(InSameOrg, s, contributed);
    FilterSorted(le, InSameOrg, s);
    var same := Filter(InSameOrg, s);
    FilterShorter(InSameOrg, s);
    if |same| >= 2 {
      SortedFirst(le, same, Filter(InSameOrg, contributed));
      RelayPermutes(same, Filter(InSameOrg, contributed), estimate);
    } else {
      SortedFirst(le, s, contributed);
      RelayPermutes(s, contributed, estimate);
    }
  }

  lemma {:induction false} FilterShorter(f: Candidate -> bool, s: seq<Candidate>)
    ensures |Filter(f, s)| <= |s|
  {
    if |s| > 0 { FilterShorter(f, s[..|s| - 1]); }
  }

  /**
    The decision for every listing. It is rejected exactly when no contributor
    survives and the public pool is paused. Otherwise one to three keys are chosen,
    from the platform alone or from contributors alone, first in sort order within
    their group; two or more exactly when the mode is a relay or a split; and the
    degraded and public-pool modes are never reached.
   */
  lemma {:induction false} RouteStructure(contributed: seq<Candidate>, platform: Candidate, paused: bool,
                                          estimate: real, weight: real)
    requires IsListing(contributed, platform)
    ensures var d := Route(contributed + [platform], paused, estimate, weight);
      var group := Group(contributed);
      && (d.mode == QueueReject <==> contributed == [] && paused)
      && d.mode != Degrade && d.mode != PublicPool
      && (d.mode == QueueReject ==> d.keys == [])
      && (contributed == [] && !paused ==> d == Decision(Single, [platform]))
      && (contributed != [] ==> PicksFrom(RoutingOrder(estimate), d.keys, group))
      && (|d.keys| >= 2 <==> d.mode in {Relay, SameOrgSplit, ParallelSplit})
      && (|contributed| == 1 ==> d.mode == Single)
      && (|contributed| >= 2 ==>
            d.mode == if PreferRelay(group, estimate) then Relay
                      else if |Filter(InSameOrg, contributed)| >= 2 then SameOrgSplit else ParallelSplit)
  {
    var le := RoutingOrder(estimate);
    RoutingOrderIsOrder(estimate);
    RouteIs(contributed, platform, paused, estimate, weight);
    SurvivorsAre(le, contributed, platform);
    if contributed != [] {
      ChosenStructure(le, Survivors(le, contributed, platform), contributed, estimate);
    }
  }

  predicate QuotaOk(c: Candidate, estimate: real) {
    c.quota >= estimate * QUOTA_BUFFER
  }

  /** Slots in use beyond the limit count as none free. */
  function Slots(c: Candidate): nat {
    if c.freeSlots > 0 then c.freeSlots else 0
  }

  /**
    Whether one candidate may come before another: contributors come before the
    platform's key and both before the public pool's; then enough quota, the model,
    the organisation, more cache affinity, the lower price, better health, more free
    slots, and more weight decide, in this order.
   */
  predicate Prefers(c: Candidate, d: Candidate, estimate: real) {
    if c.platformDefault != d.platformDefault then d.platformDefault
    else if c.publicPool != d.publicPool then d.publicPool
    else if QuotaOk(c, estimate) != QuotaOk(d, estimate) then QuotaOk(c, estimate)
    else if c.modelMatch != d.modelMatch then c.modelMatch
    else if c.sameOrg != d.sameOrg then c.sameOrg
    else if c.affinity != d.affinity then c.affinity > d.affinity
    else if c.minPrice != d.minPrice then c.minPrice < d.minPrice
    else if c.score != d.score then c.score > d.score
    else if Slots(c) != Slots(d) then Slots(c) > Slots(d)
    else c.weight >= d.weight
  }

  lemma {:induction false} LexFrom(x: seq<real>, y: seq<real>, k: nat)
    requires k < |x| == |y|
    ensures LexLe(x[k..], y[k..]) <==> x[k] < y[k] || (x[k] == y[k] && LexLe(x[k + 1..], y[k + 1..]))
  {
    assert x[k..][1..] == x[k + 1..] && y[k..][1..] == y[k + 1..];
  }

  /** Whether tuples are in order from position k on, position by position. */
  predicate InOrder(x: seq<real>, y: seq<real>, k: nat)
    requires k <= |x| == |y|
    decreases |x| - k
  {
    k == |x| || x[k] < y[k] || (x[k] == y[k] && InOrder(x, y, k + 1))
  }

  lemma {:induction false} LexIsInOrder(x: seq<real>, y: seq<real>, k: nat)
    requires k <= |x| == |y|
    ensures LexLe(x[k..], y[k..]) <==> InOrder(x, y, k)
    decreases |x| - k
  {
    if k < |x| {
      LexFrom(x, y, k);
      LexIsInOrder(x, y, k + 1);
    }
  }

  /** Where the flags agree, the numbers decide. */
  lemma {:induction false} NumbersDecide(c: Candidate, d: Candidate, estimate: real, x: seq<real>, y: seq<real>)
    requires x == SortKey(c, estimate) && y == SortKey(d, estimate)
    ensures InOrder(x, y, 5) <==>
              if c.affinity != d.affinity then c.affinity > d.affinity
              else if c.minPrice != d.minPrice then c.minPrice < d.minPrice
              else if c.score != d.score then c.score > d.score
              else if Slots(c) != Slots(d) then Slots(c) > Slots(d)
              else c.weight >= d.weight
  {
    assert InOrder(x, y, 10);
    assert InOrder(x, y, 9) <==> c.weight >= d.weight;
    assert InOrder(x, y, 8) <==> if Slots(c) != Slots(d) then Slots(c) > Slots(d) else InOrder(x, y, 9);
    assert InOrder(x, y, 7) <==> if c.score != d.score then c.score > d.score else InOrder(x, y, 8);
    assert InOrder(x, y, 6) <==> if c.minPrice != d.minPrice then c.minPrice < d.minPrice else InOrder(x, y, 7);
  }

  /** The order of the sort keys, in terms of what the candidates are. */
  lemma {:induction false} BeforeIff(c: Candidate, d: Candidate, estimate: real)
    ensures Before(c, d, estimate) <==> Prefers(c, d, estimate)
  {
    var (x, y) := (SortKey(c, estimate), SortKey(d, estimate));
    LexIsInOrder(x, y, 0);
    assert x[0..] == x && y[0..] == y;
    NumbersDecide(c, d, estimate, x, y);
    assert InOrder(x, y, 4) <==> if c.sameOrg != d.sameOrg then c.sameOrg else InOrder(x, y, 5);
    assert InOrder(x, y, 3) <==> if c.modelMatch != d.modelMatch then c.modelMatch else InOrder(x, y, 4);
    assert InOrder(x, y, 2) <==> if QuotaOk(c, estimate) != QuotaOk(d, estimate) then QuotaOk(c, estimate)
                                 else InOrder(x, y, 3);
    assert InOrder(x, y, 1) <==> if c.publicPool != d.publicPool then d.publicPool else InOrder(x, y, 2);
  }

  /** The two agree on everything up to cache affinity. */
  predicate TieToAffinity(c: Candidate, d: Candidate, estimate: real) {
    && QuotaOk(c, estimate) == QuotaOk(d, estimate) && c.modelMatch == d.modelMatch && c.sameOrg == d.sameOrg
    && c.affinity == d.affinity
  }

  /**
    Among contributors quota comes first, then the model, the organisation, cache
    affinity, price, health, free slots and weight.
   */
  lemma {:induction false} FirstCriteria(c: Candidate, d: Candidate, estimate: real)
    requires IsContributed(c) && IsContributed(d) && Before(c, d, estimate)
    ensures QuotaOk(d, estimate) ==> QuotaOk(c, estimate)
    ensures QuotaOk(c, estimate) == QuotaOk(d, estimate) && d.modelMatch ==> c.modelMatch
    ensures QuotaOk(c, estimate) == QuotaOk(d, estimate) && c.modelMatch == d.modelMatch && d.sameOrg ==> c.sameOrg
    ensures QuotaOk(c, estimate) == QuotaOk(d, estimate) && c.modelMatch == d.modelMatch && c.sameOrg == d.sameOrg ==>
              c.affinity >= d.affinity
    ensures TieToAffinity(c, d, estimate) ==> c.minPrice <= d.minPrice
    ensures TieToAffinity(c, d, estimate) && c.minPrice == d.minPrice ==> c.score >= d.score
    ensures TieToAffinity(c, d, estimate) && c.minPrice == d.minPrice && c.score == d.score ==> Slots(c) >= Slots(d)
    ensures TieToAffinity(c, d, estimate) && c.minPrice == d.minPrice && c.score == d.score && Slots(c) == Slots(d) ==>
              c.weight >= d.weight
  {
    BeforeIff(c, d, estimate);
  }

  /**
    Whenever contributors survive, the primary key comes first, in that order, of
    its group; among keys that tie with it on the earlier criteria none is cheaper.
   */
  lemma {:induction false} PrimaryFits(contributed: seq<Candidate>, platform: Candidate, paused: bool, estimate: real,
                                       weight: real, d: Candidate)
    requires IsListing(contributed, platform) && d in Group(contributed)
    ensures var keys := Route(contributed + [platform], paused, estimate, weight).keys;
      && |keys| > 0 && keys[0] in Group(contributed)
      && Prefers(keys[0], d, estimate)
      && (QuotaOk(d, estimate) ==> QuotaOk(keys[0], estimate))
      && (QuotaOk(keys[0], estimate) == QuotaOk(d, estimate) && d.modelMatch ==> keys[0].modelMatch)
      && (TieToAffinity(keys[0], d, estimate) ==> keys[0].minPrice <= d.minPrice)
  {
    RouteStructure(contributed, platform, paused, estimate, weight);
    FilterMembers(InSameOrg, contributed);
    assert contributed != [];
    var first := Route(contributed + [platform], paused, estimate, weight).keys[0];
    BeforeIff(first, d, estimate);
    FirstCriteria(first, d, estimate);
  }

  lemma {:induction false} PickedAreBest(le: Order, keys: seq<Candidate>, group: seq<Candidate>, c: Candidate,
                                         d: Candidate)
    requires PicksFrom(le, keys, group) && c in keys && d in multiset(group) - multiset(keys)
    ensures le(c, d)
  {
  }

  /** What is left out of a group is no better than anything chosen from it. */
  lemma {:induction false} ChosenAreBest(contributed: seq<Candidate>, platform: Candidate, paused: bool, estimate: real,
                                         weight: real, keys: seq<Candidate>, c: Candidate, d: Candidate)
    requires IsListing(contributed, platform) && contributed != []
    requires keys == Route(contributed + [platform], paused, estimate, weight).keys
    requires c in keys && d in multiset(Group(contributed)) - multiset(keys)
    ensures Prefers(c, d, estimate)
  {
    RouteStructure(contributed, platform, paused, estimate, weight);
    PickedAreBest(RoutingOrder(estimate), keys, Group(contributed), c, d);
    BeforeIff(c, d, estimate);
  }

  lemma {:induction false} RelayPermutes(s: seq<Candidate>, t: seq<Candidate>, estimate: real)
    requires multiset(s) == multiset(t)
    ensures PreferRelay(s, estimate) == PreferRelay(t, estimate)
  {
    assert |multiset(s)| == |multiset(t)|;
    forall c ensures c in s <==> c in t {
      assert c in s <==> c in multiset(s);
      assert c in t <==> c in multiset(t);
    }
  }

  // ---- a failed key is never routed to

  lemma {:induction false} ListingExcludesDown(rows: Rows, keys: seq<KeyRow>, ask: Ask, k: KeyId)
    requires Scored(rows) && Down(rows, k)
    ensures var (after, found) := Listed(rows, keys, ask);
      && Scored(after) && Down(after, k)
      && forall c <- found :: c.id != k && IsContributed(c) && InService(c)
  {
    if |keys| > 0 {
      ListingExcludesDown(rows, keys[..|keys| - 1], ask, k);
      var (before, found) := Listed(rows, keys[..|keys| - 1], ask);
      var row := keys[|keys| - 1];
      StepLowers(before, Evaluate(row.id, row.traffic), k);
      NeverUnhealthy(Row(before, row.id), false, row.traffic);
    }
  }

  predicate DistinctKeys(keys: seq<KeyRow>) {
    forall i, j :: 0 <= i < j < |keys| ==> keys[i].id != keys[j].id
  }

  predicate IsListed(found: seq<Candidate>, k: KeyId) {
    exists c <- found :: c.id == k
  }

  /** Keys that are not visited are neither evaluated nor listed. */
  lemma {:induction false} UnvisitedStays(rows: Rows, keys: seq<KeyRow>, ask: Ask, k: KeyId)
    requires forall row <- keys :: row.id != k
    ensures var (after, found) := Listed(rows, keys, ask);
      Row(after, k) == Row(rows, k) && !IsListed(found, k)
  {
    if |keys| > 0 {
      assert keys[|keys| - 1] in keys;
      UnvisitedStays(rows, keys[..|keys| - 1], ask, k);
    }
  }

  /** A window holds the hours that, counted on from its first and past midnight if need be, come by its last. */
  lemma {:induction false} InWindowIff(first: int, last: int, hour: int)
    requires 0 <= first < 24 && 0 <= last < 24 && 0 <= hour < 24
    ensures InHours(Window(first, last), hour) <==> (hour - first) % 24 <= (last - first) % 24
    ensures InHours(Plain(first, last), hour) <==> first <= hour && hour <= last
    ensures InHours(Always, hour)
  {
  }

  /** What a key must be to be asked for its health at all. */
  lemma {:induction false} FitsIff(row: KeyRow, ask: Ask)
    ensures Fits(row, ask) <==>
      && row.tos in {"self_host", "resale_allowed"} + (if row.vendor == "self_host" then {row.tos} else {})
      && InHours(row.hours, ask.hour)
      && (row.vendor == ask.vendor || ask.vendor == "self_host" || row.models == []
          || exists m <- row.models :: m == ask.model || m == "default")
  {
  }

  predicate Serving(row: KeyRow, h: Health, ask: Ask) {
    && Fits(row, ask)
    && row.traffic.rateLimitHits < 5 && h.verdict != Offline && h.score >= 0.3
    && (row.dailyCap > 0.0 ==> row.dailyCap - row.usedToday >= 1.3 * ask.estimate)
  }

  lemma {:induction false} ServesIff(row: KeyRow, h: Health, ask: Ask)
    ensures Serves(row, Evaluated(h, false, row.traffic), ask) <==> Serving(row, h, ask)
  {
    EvaluationIs(h, false, row.traffic);
    assert ask.estimate * QUOTA_BUFFER == 1.3 * ask.estimate;
  }

  /**
    Exactly which registered keys are listed: those that fit, are not rate limited,
    have been neither put offline nor scored below 0.3, and have 1.3 times the
    estimate left of a daily cap.
   */
  lemma {:induction false} ListedIff(rows: Rows, keys: seq<KeyRow>, ask: Ask, i: nat)
    requires DistinctKeys(keys) && i < |keys|
    ensures var row := keys[i];
      && (IsListed(Listed(rows, keys, ask).1, row.id)
          <==> Serves(row, Evaluated(Row(rows, row.id), false, row.traffic), ask))
      && (IsListed(Listed(rows, keys, ask).1, row.id) <==> Serving(row, Row(rows, row.id), ask))
  {
    var init := keys[..|keys| - 1];
    var (before, found) := Listed(rows, init, ask);
    var last := keys[|keys| - 1];
    var h := Evaluated(Row(before, last.id), false, last.traffic);
    ServesIff(keys[i], Row(rows, keys[i].id), ask);
    if i < |init| {
      ListedIff(rows, init, ask, i);
      ListingGrows(found, AsCandidate(last, h, ask), keys[i].id);
    } else {
      UnvisitedStays(rows, init, ask, last.id);
      ListingGrows(found, AsCandidate(last, h, ask), last.id);
    }
  }

  /** What a candidate says of the key it stands for, and of its health as just evaluated. */
  predicate StandsFor(c: Candidate, row: KeyRow, h: Health, ask: Ask) {
    && c.id == row.id && !c.platformDefault && !c.publicPool
    && c.quota == (if row.dailyCap > 0.0 then row.dailyCap - row.usedToday else 10.0 * ask.estimate)
    && (c.modelMatch <==> row.models == [] || exists m <- row.models :: m == ask.model || m == "default")
    && c.sameOrg == row.sameOrg && c.affinity == row.affinity && c.minPrice == row.minPrice
    && c.freeSlots == row.freeSlots && c.weight == row.weight
    && c.score == h.score && c.verdict == h.verdict
  }

  predicate StandsForOne(c: Candidate, rows: Rows, keys: seq<KeyRow>, ask: Ask) {
    exists row <- keys :: StandsFor(c, row, Evaluated(Row(rows, row.id), false, row.traffic), ask)
  }

  /** Every candidate listed stands for a registered key, and has the quota the sort key asks for. */
  lemma {:induction false} ListedStandFor(rows: Rows, keys: seq<KeyRow>, ask: Ask)
    requires DistinctKeys(keys)
    ensures forall c <- Listed(rows, keys, ask).1 ::
      StandsForOne(c, rows, keys, ask) && (ask.estimate >= 0.0 ==> QuotaOk(c, ask.estimate))
  {
    if |keys| > 0 {
      var init := keys[..|keys| - 1];
      var last := keys[|keys| - 1];
      ListedStandFor(rows, init, ask);
      UnvisitedStays(rows, init, ask, last.id);
      var found := Listed(rows, init, ask).1;
      forall c <- Listed(rows, keys, ask).1
        ensures StandsForOne(c, rows, keys, ask) && (ask.estimate >= 0.0 ==> QuotaOk(c, ask.estimate))
      {
        if c in found {
          var row :| row in init && StandsFor(c, row, Evaluated(Row(rows, row.id), false, row.traffic), ask);
          assert row in keys;
        } else {
          assert last in keys && StandsFor(c, last, Evaluated(Row(rows, last.id), false, last.traffic), ask);
        }
      }
    }
  }

  /** Listing evaluates exactly the keys that fit, listed or not. */
  lemma {:induction false} ListingEvaluates(rows: Rows, keys: seq<KeyRow>, ask: Ask, i: nat)
    requires DistinctKeys(keys) && i < |keys|
    ensures var (row, after) := (keys[i], Listed(rows, keys, ask).0);
      Row(after, row.id) == if Fits(row, ask) then Evaluated(Row(rows, row.id), false, row.traffic)
                            else Row(rows, row.id)
  {
    var init := keys[..|keys| - 1];
    if i < |init| { ListingEvaluates(rows, init, ask, i); } else { UnvisitedStays(rows, init, ask, keys[i].id); }
  }

  /** The platform's key is never short and costs nothing, but never comes before a contributor's. */
  lemma {:induction false} PlatformComesLast(c: Candidate, id: KeyId, estimate: real, weight: real)
    requires IsContributed(c)
    ensures var p := PlatformDefault(id, estimate, weight);
      && p.id == id && p.platformDefault && p.minPrice == 0.0 && p.score == 1.0 && p.weight == weight
      && p.quota == 100.0 * estimate && p.modelMatch && p.sameOrg && p.affinity == 0.0 && p.freeSlots == 999
      && (estimate >= 0.0 ==> QuotaOk(p, estimate))
      && Before(c, p, estimate) && !Before(p, c, estimate)
  {
    BeforeIff(c, PlatformDefault(id, estimate, weight), estimate);
    BeforeIff(PlatformDefault(id, estimate, weight), c, estimate);
  }

  /**
    With two or more contributors, keys work in relay exactly when one of the group
    has a cache affinity above 0.1; how much quota it has plays no part.
   */
  lemma {:induction false} RelayIff(contributed: seq<Candidate>, platform: Candidate, paused: bool, estimate: real,
                                    weight: real)
    requires IsListing(contributed, platform) && |contributed| >= 2
    ensures Route(contributed + [platform], paused, estimate, weight).mode == Relay
            <==> exists c <- Group(contributed) :: c.affinity > 0.1
  {
    RouteStructure(contributed, platform, paused, estimate, weight);
  }

  /** The group is made of those of the account's organisation when there are two of them, else of everyone. */
  lemma {:induction false} GroupIs(contributed: seq<Candidate>, c: Candidate)
    ensures var own := c.sameOrg || Group(contributed) == contributed;
      multiset(Group(contributed))[c] == if own then multiset(contributed)[c] else 0
    ensures Group(contributed) != contributed ==>
              |Group(contributed)| >= 2 && forall d <- Group(contributed) :: d.sameOrg
    ensures (exists i, j :: 0 <= i < j < |contributed| && contributed[i].sameOrg && contributed[j].sameOrg) ==>
              forall d <- Group(contributed) :: d.sameOrg
  {
    FilterCounts(InSameOrg, contributed, c);
    FilterMembers(InSameOrg, contributed);
    if i, j :| 0 <= i < j < |contributed| && contributed[i].sameOrg && contributed[j].sameOrg {
      TwoPass(contributed, i, j);
    }
  }

  lemma {:induction false} TwoPass(s: seq<Candidate>, i: nat, j: nat)
    requires i < j < |s| && s[i].sameOrg && s[j].sameOrg
    ensures |Filter(InSameOrg, s)| >= 2
  {
    if j < |s| - 1 {
      TwoPass(s[..|s| - 1], i, j);
    } else {
      FilterMembers(InSameOrg, s[..j]);
      assert s[..j][i] in Filter(InSameOrg, s[..j]);
    }
  }

  lemma {:induction false} ListingGrows(found: seq<Candidate>, c: Candidate, k: KeyId)
    ensures IsListed(found + [c], k) <==> IsListed(found, k) || c.id == k
  {
    assert (found + [c])[|found|] == c;
    forall d <- found ensures d in found + [c] {
    }
  }

  /** Every listing satisfies what the decision relies on. */
  lemma {:induction false} ListedIsListing(rows: Rows, keys: seq<KeyRow>, ask: Ask, platform: KeyId, weight: real)
    ensures IsListing(Listed(rows, keys, ask).1, PlatformDefault(platform, ask.estimate, weight))
  {
    if |keys| > 0 {
      ListedIsListing(rows, keys[..|keys| - 1], ask, platform, weight);
      NeverUnhealthy(Row(Listed(rows, keys[..|keys| - 1], ask).0, keys[|keys| - 1].id), false,
          keys[|keys| - 1].traffic);
    }
  }

  lemma {:induction false} FilterNone(f: Candidate -> bool, s: seq<Candidate>)
    ensures Filter(f, s) == [] <==> forall c <- s :: !f(c)
  {
    FilterMembers(f, s);
    if Filter(f, s) != [] { assert Filter(f, s)[0] in Filter(f, s); }
  }

  /**
    For every list of keys, whatever made it: degraded keys count as in service, so
    the branch for them is never taken; the public pool serves exactly when every
    key is offline or unhealthy and the pool is not paused.
   */
  lemma {:induction false} FallbackIs(raw: seq<Candidate>, paused: bool, estimate: real, weight: real)
    ensures var d := Route(raw, paused, estimate, weight);
      var nobody := forall c <- raw :: c.verdict == Offline || c.verdict == Unhealthy;
      && d.mode != Degrade
      && (d.mode == PublicPool <==> nobody && !paused)
      && (nobody && paused ==> d == Decision(QueueReject, []))
      && (d.mode == PublicPool ==>
            |d.keys| == 1 && d.keys[0].id == "public_pool_premium" && d.keys[0].publicPool && !d.keys[0].platformDefault
            && d.keys[0].quota == 50.0 * estimate && d.keys[0].weight == weight && d.keys[0].verdict == Healthy
            && !d.keys[0].modelMatch && !d.keys[0].sameOrg && d.keys[0].affinity == d.keys[0].minPrice == 0.0)
  {
    var le := RoutingOrder(estimate);
    RoutingOrderIsOrder(estimate);
    SortSorts(le, Filter(InService, raw));
    FilterNone(InService, raw);
    if Filter(InService, raw) == [] {
      FilterNone(IsDegraded, raw);
      assert SortBy(le, Filter(IsDegraded, raw)) == [];
    } else {
      AmongNeverFallsBack(SortBy(le, Filter(InService, raw)), paused, estimate);
    }
  }

  lemma {:induction false} AmongNeverFallsBack(sorted: seq<Candidate>, paused: bool, estimate: real)
    requires |sorted| > 0
    ensures DecideAmong(sorted, paused, estimate).mode != Degrade
    ensures DecideAmong(sorted, paused, estimate).mode != PublicPool
  {
  }

  /**
    After a key failure and any later events, evaluations and registrations, no
    routing decision selects the failed contributor key.
   */
  lemma {:induction false} FailedKeyNeverRouted(rows: Rows, before: seq<Op>, k: KeyId, t: Traffic, after: seq<Op>,
                             keys: seq<KeyRow>, ask: Ask, platform: KeyId, paused: bool, weight: real)
    requires Scored(rows) && k != platform
    ensures var later := Run(Step(Run(rows, before), Record(k, KeyFailure, t)), after);
      var found := Listed(later, keys, ask).1;
      var raw := found + [PlatformDefault(platform, ask.estimate, weight)];
      forall c <- Route(raw, paused, ask.estimate, weight).keys :: c.id != k
  {
    var failed := Step(Run(rows, before), Record(k, KeyFailure, t));
    var later := Run(failed, after);
    var found := Listed(later, keys, ask).1;
    var p := PlatformDefault(platform, ask.estimate, weight);
    ScoreNeverRises(rows, before, k);
    StepLowers(Run(rows, before), Record(k, KeyFailure, t), k);
    ScoreNeverRises(failed, after, k);
    FailureIsAbsorbing(rows, before, k, t, after, t);
    ListingExcludesDown(later, keys, ask, k);
    RouteStructure(found, p, paused, ask.estimate, weight);
    var d := Route(found + [p], paused, ask.estimate, weight);
    forall c <- d.keys ensures c.id != k {
      if found != [] {
        assert c in multiset(d.keys);
        GroupWithin(found, c);
      }
    }
  }

  lemma {:induction false} GroupWithin(contributed: seq<Candidate>, c: Candidate)
    requires c in multiset(Group(contributed))
    ensures c in contributed
  {
    FilterMembers(InSameOrg, contributed);
  }
}
