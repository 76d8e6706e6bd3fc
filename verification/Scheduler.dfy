/**
  Planning parallel phases: a relaxation loop finds every task's depth, and tasks
  of equal depth form a phase.

  A task's dependencies are the integers of its `depends_on` list; those outside
  the index range are ignored.
 */
module Scheduler {
  import opened Collections

  type Graph = seq<seq<int>>

  predicate Depends(g: Graph, i: int, j: int) {
    0 <= i < |g| && j in g[i] && 0 <= j < |g|
  }

  /** A chain of tasks, each depending on the next. */
  predicate Chain(g: Graph, c: seq<int>) {
    && |c| > 0
    && (forall k :: 0 <= k < |c| ==> 0 <= c[k] < |g|)
    && (forall k :: 0 <= k < |c| - 1 ==> Depends(g, c[k], c[k + 1]))
  }

  ghost predicate Acyclic(g: Graph) {
    forall c :: Chain(g, c) && |c| > 1 ==> c[0] != c[|c| - 1]
  }

  /** A depth assignment the loop cannot raise any further. */
  ghost predicate Stable(g: Graph, depth: seq<nat>) {
    |depth| == |g| && forall i, j :: Depends(g, i, j) ==> depth[i] > depth[j]
  }

  /** Every depth is the length of some chain of dependencies. */
  ghost predicate Achieved(g: Graph, depth: seq<nat>) {
    |depth| == |g| && forall i :: 0 <= i < |g| ==> HasChain(g, i, depth[i])
  }

  ghost predicate HasChain(g: Graph, i: int, length: nat) {
    exists c :: Chain(g, c) && c[0] == i && |c| == length + 1
  }

  /** d is the number of dependencies on the longest chain from i. */
  ghost predicate IsLongestChain(g: Graph, i: int, d: nat) {
    HasChain(g, i, d) && forall c :: Chain(g, c) && c[0] == i ==> |c| <= d + 1
  }

  // ---- chains are short

  lemma {:induction false} ChainExtends(g: Graph, i: int, j: int, length: nat)
    requires Depends(g, i, j) && HasChain(g, j, length)
    ensures HasChain(g, i, length + 1)
  {
    var c :| Chain(g, c) && c[0] == j && |c| == length + 1;
    var more := [i] + c;
    forall k | 0 <= k < |more| - 1 ensures Depends(g, more[k], more[k + 1]) {
      if k > 0 { assert more[k] == c[k - 1] && more[k + 1] == c[k]; }
    }
    assert Chain(g, more);
  }

  lemma {:induction false} ChainSegment(g: Graph, c: seq<int>, i: nat, j: nat)
    requires Chain(g, c) && i < j <= |c|
    ensures Chain(g, c[i..j])
  {
    forall k | 0 <= k < j - i - 1 ensures Depends(g, c[i..j][k], c[i..j][k + 1]) {
      assert c[i..j][k] == c[i + k] && c[i..j][k + 1] == c[i + k + 1];
    }
  }

  lemma {:induction false} DistinctBelow(c: seq<int>, n: nat)
    requires forall k :: 0 <= k < |c| ==> 0 <= c[k] < n
    requires forall i, j :: 0 <= i < j < |c| ==> c[i] != c[j]
    ensures |c| <= n
    decreases n
  {
    if |c| > 0 {
      assert 0 <= c[0] < n;
      if n - 1 in c {
        var k :| 0 <= k < |c| && c[k] == n - 1;
        DistinctBelow(c[..k] + c[k + 1..], n - 1);
      } else {
        DistinctBelow(c, n - 1);
      }
    }
  }

  /** Without cycles no task repeats on a chain, so a chain has at most |g| tasks. */
  lemma {:induction false} ChainIsShort(g: Graph, c: seq<int>)
    requires Acyclic(g) && Chain(g, c)
    ensures |c| <= |g|
  {
    forall i, j | 0 <= i < j < |c| ensures c[i] != c[j] {
      ChainSegment(g, c, i, j + 1);
      var part := c[i..j + 1];
      assert part[0] == c[i] && part[|part| - 1] == c[j];
    }
    DistinctBelow(c, |g|);
  }

  // ---- stable and achieved means longest

  /** Along a chain a stable depth falls at every step. */
  lemma {:induction false} StableBoundsChains(g: Graph, depth: seq<nat>, c: seq<int>)
    requires Stable(g, depth) && Chain(g, c)
    ensures depth[c[0]] >= depth[c[|c| - 1]] + |c| - 1
  {
    if |c| > 1 {
      ChainSegment(g, c, 1, |c|);
      assert Depends(g, c[0], c[1]);
      StableBoundsChains(g, depth, c[1..]);
    }
  }

  /** The loop can stop at all only when there is no cycle. */
  lemma {:induction false} StableOnlyIfAcyclic(g: Graph, depth: seq<nat>)
    requires Stable(g, depth)
    ensures Acyclic(g)
  {
    forall c | Chain(g, c) && |c| > 1 ensures c[0] != c[|c| - 1] {
      StableBoundsChains(g, depth, c);
    }
  }

  lemma {:induction false} FixpointIsLongest(g: Graph, depth: seq<nat>)
    requires Stable(g, depth) && Achieved(g, depth)
    ensures forall i :: 0 <= i < |g| ==> IsLongestChain(g, i, depth[i])
  {
    forall i | 0 <= i < |g| ensures IsLongestChain(g, i, depth[i]) {
      forall c | Chain(g, c) && c[0] == i ensures |c| <= depth[i] + 1 {
        StableBoundsChains(g, depth, c);
      }
    }
  }

  lemma {:induction false} LongestIsUnique(g: Graph, i: int, d: nat, e: nat)
    requires IsLongestChain(g, i, d) && IsLongestChain(g, i, e)
    ensures d == e
  {
    var c :| Chain(g, c) && c[0] == i && |c| == d + 1;
    var b :| Chain(g, b) && b[0] == i && |b| == e + 1;
  }

  /** Below a positive depth there is a task one level down. */
  lemma {:induction false} NoGapBelow(g: Graph, depth: seq<nat>, i: int)
    requires Stable(g, depth) && Achieved(g, depth) && 0 <= i < |g| && depth[i] > 0
    ensures exists j :: 0 <= j < |g| && depth[j] == depth[i] - 1
  {
    var c :| Chain(g, c) && c[0] == i && |c| == depth[i] + 1;
    var j := c[1];
    assert Depends(g, c[0], c[1]);
    ChainSegment(g, c, 1, |c|);
    StableBoundsChains(g, depth, c[1..]);
    assert depth[j] >= depth[i] - 1;
  }

  lemma {:induction false} NoGaps(g: Graph, depth: seq<nat>, i: int, level: nat)
    requires Stable(g, depth) && Achieved(g, depth) && 0 <= i < |g| && level <= depth[i]
    ensures exists j :: 0 <= j < |g| && depth[j] == level
    decreases depth[i] - level
  {
    if level < depth[i] {
      NoGapBelow(g, depth, i);
      var j :| 0 <= j < |g| && depth[j] == depth[i] - 1;
      NoGaps(g, depth, j, level);
    }
  }

  // ---- the loop terminates

  lemma {:induction false} SumBound(s: seq<nat>, bound: nat)
    requires forall x <- s :: x <= bound
    ensures Sum(s) <= |s| * bound
  {
    if |s| > 0 {
      var shorter := s[..|s| - 1];
      forall x <- shorter ensures x <= bound { assert x in s; }
      assert s[|s| - 1] in s;
      SumBound(s[..|s| - 1], bound);
      assert |s| * bound == (|s| - 1) * bound + bound;
    }
  }

  lemma {:induction false} SumUpdate(s: seq<nat>, i: nat, x: nat)
    requires i < |s|
    ensures Sum(s[i := x]) == Sum(s) - s[i] + x
  {
    var last := |s| - 1;
    if i < last {
      assert s[i := x][..last] == s[..last][i := x];
      SumUpdate(s[..last], i, x);
    } else {
      assert s[i := x][..last] == s[..last];
    }
  }

  /** Achieved depths cannot grow past |g| each. */
  lemma {:induction false} AchievedBound(g: Graph, depth: seq<nat>)
    requires Acyclic(g) && Achieved(g, depth)
    ensures Sum(depth) <= |g| * |g|
  {
    forall d <- depth ensures d <= |g| {
      var i :| 0 <= i < |depth| && depth[i] == d;
      assert HasChain(g, i, depth[i]);
      var c :| Chain(g, c) && c[0] == i && |c| == depth[i] + 1;
      ChainIsShort(g, c);
    }
    SumBound(depth, |g|);
  }

  /** The tasks before i sit above all their dependencies. */
  ghost predicate StableBefore(g: Graph, depth: seq<nat>, i: int) {
    |depth| == |g| && forall a, b :: Depends(g, a, b) && a < i ==> depth[a] > depth[b]
  }

  /** Task i sits above its first k dependencies. */
  ghost predicate StableAt(g: Graph, depth: seq<nat>, i: int, k: nat)
    requires 0 <= i < |g| && k <= |g[i]|
  {
    |depth| == |g| && forall b :: 0 <= b < |g| && b in g[i][..k] ==> depth[i] > depth[b]
  }

  /** The state of a pass: depths achieved, and grown since `before` if anything changed. */
  ghost predicate Pass(g: Graph, depth: seq<nat>, before: nat, changed: bool) {
    && Achieved(g, depth)
    && before <= Sum(depth)
    && (changed ==> before < Sum(depth))
  }

  /** One pass over every listed dependency. */
  method RelaxOnce(g: Graph, depth: array<nat>) returns (changed: bool)
    requires depth.Length == |g| && Achieved(g, depth[..])
    modifies depth
    ensures Pass(g, depth[..], old(Sum(depth[..])), changed)
    ensures !changed ==> StableBefore(g, depth[..], |g|)
  {
    ghost var before := Sum(depth[..]);
    changed := false;
    for i := 0 to |g|
      invariant Pass(g, depth[..], before, changed)
      invariant !changed ==> StableBefore(g, depth[..], i)
    {
      for k := 0 to |g[i]|
        invariant Pass(g, depth[..], before, changed)
        invariant !changed ==> StableBefore(g, depth[..], i) && StableAt(g, depth[..], i, k)
      {
        assert g[i][..k + 1] == g[i][..k] + [g[i][k]];
        var raised := RaiseAbove(g, depth, i, g[i][k], before, changed);
        changed := changed || raised;
      }
      assert g[i][..|g[i]|] == g[i];
    }
  }

  /** The relaxation loop: raise tasks above their dependencies until nothing changes. */
  method ComputeDepths(g: Graph) returns (depth: array<nat>)
    requires Acyclic(g)
    ensures fresh(depth) && depth.Length == |g|
    ensures Stable(g, depth[..]) && Achieved(g, depth[..])
  {
    depth := new nat[|g|](_ => 0);
    ZeroAchieved(g, depth[..]);
    AchievedBound(g, depth[..]);
    ghost var bound := |g| * |g|;
    var changed := true;
    while changed
      invariant Achieved(g, depth[..]) && Sum(depth[..]) <= bound
      invariant !changed ==> StableBefore(g, depth[..], |g|)
      decreases bound - Sum(depth[..]), changed
    {
      changed := RelaxOnce(g, depth);
      AchievedBound(g, depth[..]);
    }
  }

  lemma {:induction false} ZeroAchieved(g: Graph, depth: seq<nat>)
    requires |depth| == |g| && forall i :: 0 <= i < |g| ==> depth[i] == 0
    ensures Achieved(g, depth)
  {
    forall i | 0 <= i < |g| ensures HasChain(g, i, depth[i]) {
      assert Chain(g, [i]);
    }
  }

  lemma {:induction false} PassRaises(g: Graph, depth: seq<nat>, i: int, dep: int, before: nat, changed: bool)
    requires Pass(g, depth, before, changed) && Depends(g, i, dep) && depth[dep] + 1 > depth[i]
    ensures Pass(g, depth[i := depth[dep] + 1], before, true)
  {
    RaiseKeepsAchieved(g, depth, i, dep);
    SumUpdate(depth, i, depth[dep] + 1);
  }

  /** Raises task i above one listed dependency if it is in range and i is not above it already. */
  method RaiseAbove(g: Graph, depth: array<nat>, i: int, dep: int, ghost before: nat,
                    ghost changed: bool) returns (raised: bool)
    requires depth.Length == |g| && 0 <= i < |g| && dep in g[i]
    requires Pass(g, depth[..], before, changed)
    modifies depth
    ensures Pass(g, depth[..], before, changed || raised)
    ensures !raised ==> depth[..] == old(depth[..]) && (0 <= dep < |g| ==> depth[i] > depth[dep])
  {
    raised := false;
    if 0 <= dep < |g| {
      var deeper := depth[dep] + 1;
      if deeper > depth[i] {
        ghost var was := depth[..];
        PassRaises(g, was, i, dep, before, changed);
        depth[i] := deeper;
        raised := true;
        assert depth[..] == was[i := deeper];
      }
    }
  }

  lemma {:induction false} RaiseKeepsAchieved(g: Graph, depth: seq<nat>, i: int, dep: int)
    requires Achieved(g, depth) && Depends(g, i, dep)
    ensures Achieved(g, depth[i := depth[dep] + 1])
  {
    ChainExtends(g, i, dep, depth[dep]);
  }

  // ---- phases

  /** The indices below n at a given depth, in increasing order. */
  function Level(depth: seq<nat>, d: nat, n: nat): seq<nat>
    requires n <= |depth|
  {
    if n == 0 then []
    else if depth[n - 1] == d then Level(depth, d, n - 1) + [n - 1]
    else Level(depth, d, n - 1)
  }

  lemma {:induction false} LevelHolds(depth: seq<nat>, d: nat, n: nat)
    requires n <= |depth|
    ensures forall i :: i in Level(depth, d, n) <==> 0 <= i < n && depth[i] == d
    ensures Increasing(Level(depth, d, n))
  {
    if n > 0 {
      LevelHolds(depth, d, n - 1);
      var shorter := Level(depth, d, n - 1);
      assert forall a :: 0 <= a < |shorter| ==> shorter[a] in shorter;
    }
  }

  type Phases = seq<seq<nat>>

  predicate InPhase(phases: Phases, p: int, i: int) {
    0 <= p < |phases| && i in phases[p]
  }

  predicate IsTask(g: Graph, i: int) {
    0 <= i < |g|
  }

  predicate Increasing(s: seq<nat>) {
    forall a, b :: 0 <= a < b < |s| ==> s[a] < s[b]
  }

  /** Every index sits at exactly one place, after everything it depends on. */
  ghost predicate ValidPhasing(g: Graph, phases: Phases) {
    && (forall p, i :: InPhase(phases, p, i) ==> IsTask(g, i))
    && (forall i :: IsTask(g, i) ==> exists p :: InPhase(phases, p, i))
    && (forall p, q, i :: InPhase(phases, p, i) && InPhase(phases, q, i) ==> p == q)
    && (forall p, a, b :: 0 <= p < |phases| && 0 <= a < b < |phases[p]| ==> phases[p][a] != phases[p][b])
    && (forall i, j, p, q :: Depends(g, i, j) && InPhase(phases, p, i) && InPhase(phases, q, j) ==> q < p)
  }

  /** A chain needs a phase for each of its tasks. */
  lemma {:induction false} ChainNeedsPhases(g: Graph, phases: Phases, c: seq<int>, p: nat)
    requires ValidPhasing(g, phases) && Chain(g, c) && InPhase(phases, p, c[0])
    ensures p >= |c| - 1
  {
    if |c| > 1 {
      assert Depends(g, c[0], c[1]);
      assert IsTask(g, c[1]);
      var q :| InPhase(phases, q, c[1]);
      ChainSegment(g, c, 1, |c|);
      ChainNeedsPhases(g, phases, c[1..], q);
    }
  }

  ghost predicate IsLevelled(depth: seq<nat>, phases: Phases) {
    && (forall p :: 0 <= p < |phases| ==> phases[p] == Level(depth, p, |depth|))
    && (forall d <- depth :: d < |phases|)
  }

  lemma {:induction false} LevelledMembers(g: Graph, depth: seq<nat>, phases: Phases)
    requires |depth| == |g| && IsLevelled(depth, phases)
    ensures forall p, i :: InPhase(phases, p, i) <==> 0 <= p < |phases| && IsTask(g, i) && depth[i] == p
    ensures forall p :: 0 <= p < |phases| ==> Increasing(phases[p])
  {
    forall p | 0 <= p < |phases|
      ensures forall i :: InPhase(phases, p, i) <==> IsTask(g, i) && depth[i] == p
      ensures Increasing(phases[p])
    {
      LevelHolds(depth, p, |depth|);
    }
  }

  lemma {:induction false} LevelledIsValid(g: Graph, depth: seq<nat>, phases: Phases)
    requires Stable(g, depth) && IsLevelled(depth, phases)
    ensures ValidPhasing(g, phases)
  {
    LevelledMembers(g, depth, phases);
    forall i | IsTask(g, i) ensures exists p :: InPhase(phases, p, i) {
      assert depth[i] in depth;
      assert InPhase(phases, depth[i], i);
    }
  }

  /** No valid phasing has fewer phases than the deepest level needs. */
  lemma {:induction false} LevelledIsOptimal(g: Graph, depth: seq<nat>, phases: Phases, other: Phases)
    requires Stable(g, depth) && Achieved(g, depth) && IsLevelled(depth, phases)
    requires |phases| > 0 ==> exists i :: 0 <= i < |g| && depth[i] == |phases| - 1
    requires ValidPhasing(g, other)
    ensures |phases| <= |other|
  {
    if |phases| > 0 {
      var i :| 0 <= i < |g| && depth[i] == |phases| - 1;
      assert HasChain(g, i, depth[i]);
      var c :| Chain(g, c) && c[0] == i && |c| == depth[i] + 1;
      assert IsTask(g, i);
      var p :| InPhase(other, p, i);
      ChainNeedsPhases(g, other, c, p);
    }
  }

  /** What planning promises: a valid phasing by depth, without empty phases, and none shorter. */
  ghost predicate IsPlan(g: Graph, phases: Phases) {
    && ValidPhasing(g, phases)
    && (forall p :: 0 <= p < |phases| ==> phases[p] != [] && Increasing(phases[p]))
    && (forall p, i :: InPhase(phases, p, i) ==> IsLongestChain(g, i, p))
    && (forall other :: ValidPhasing(g, other) ==> |phases| <= |other|)
  }

  lemma {:induction false} LevelledIsPlan(g: Graph, depth: seq<nat>, phases: Phases, deepest: int)
    requires Stable(g, depth) && Achieved(g, depth) && IsLevelled(depth, phases)
    requires IsTask(g, deepest) && depth[deepest] == |phases| - 1
    ensures IsPlan(g, phases)
    ensures forall p :: 0 <= p < |phases| ==> phases[p] != []
  {
    LevelledIsValid(g, depth, phases);
    LevelledMembers(g, depth, phases);
    FixpointIsLongest(g, depth);
    forall p | 0 <= p < |phases| ensures phases[p] != [] {
      NoGaps(g, depth, deepest, p);
      var j :| 0 <= j < |g| && depth[j] == p;
      assert InPhase(phases, p, j);
    }
    forall other | ValidPhasing(g, other) ensures |phases| <= |other| {
      LevelledIsOptimal(g, depth, phases, other);
    }
  }

  method MaxDepth(depth: array<nat>) returns (maxDepth: nat, ghost deepest: nat)
    requires depth.Length > 0
    ensures deepest < depth.Length && depth[deepest] == maxDepth
    ensures forall d <- depth[..] :: d <= maxDepth
  {
    maxDepth, deepest := depth[0], 0;
    for i := 1 to depth.Length
      invariant deepest < depth.Length && depth[deepest] == maxDepth
      invariant forall k :: 0 <= k < i ==> depth[k] <= maxDepth
    {
      if depth[i] > maxDepth {
        maxDepth, deepest := depth[i], i;
      }
    }
  }

  /** Drops in each task at its depth, one phase list per depth. */
  method GroupByDepth(depth: array<nat>, maxDepth: nat) returns (levels: Phases)
    requires forall d <- depth[..] :: d <= maxDepth
    ensures |levels| == maxDepth + 1 && IsLevelled(depth[..], levels)
  {
    levels := seq(maxDepth + 1, _ => []);
    for i := 0 to depth.Length
      invariant |levels| == maxDepth + 1
      invariant forall d :: 0 <= d <= maxDepth ==> levels[d] == Level(depth[..], d, i)
    {
      assert depth[..][i] in depth[..];
      levels := levels[depth[i] := levels[depth[i]] + [i]];
    }
  }

  function NonEmpty(levels: Phases): Phases {
    if |levels| == 0 then []
    else NonEmpty(levels[..|levels| - 1]) + if levels[|levels| - 1] == [] then [] else [levels[|levels| - 1]]
  }

  lemma {:induction false} NothingDropped(levels: Phases)
    requires forall p :: 0 <= p < |levels| ==> levels[p] != []
    ensures NonEmpty(levels) == levels
  {
    if |levels| > 0 { NothingDropped(levels[..|levels| - 1]); }
  }

  method DropEmpty(levels: Phases) returns (phases: Phases)
    ensures phases == NonEmpty(levels)
  {
    phases := [];
    for d := 0 to |levels|
      invariant phases == NonEmpty(levels[..d])
    {
      assert levels[..d + 1][..d] == levels[..d];
      if levels[d] != [] {
        phases := phases + [levels[d]];
      }
    }
    assert levels[..|levels|] == levels;
  }

  method PlanParallelExecution(g: Graph) returns (phases: Phases)
    requires Acyclic(g)
    ensures IsPlan(g, phases)
  {
    if |g| == 0 {
      return [];
    }
    var depth := ComputeDepths(g);
    var maxDepth, deepest := MaxDepth(depth);
    var levels := GroupByDepth(depth, maxDepth);
    LevelledIsPlan(g, depth[..], levels, deepest);
    NothingDropped(levels);
    phases := DropEmpty(levels);
  }

  lemma {:induction false} RaiseSome(g: Graph, depth: seq<nat>) returns (next: seq<nat>)
    requires Achieved(g, depth) && !Stable(g, depth)
    ensures Achieved(g, next) && Sum(next) > Sum(depth)
  {
    var i, j :| Depends(g, i, j) && depth[i] <= depth[j];
    RaiseKeepsAchieved(g, depth, i, j);
    SumUpdate(depth, i, depth[j] + 1);
    next := depth[i := depth[j] + 1];
  }

  /** Raising any task that is not above a dependency, for as long as there is one, ends without a cycle. */
  lemma {:induction false} StableExists(g: Graph) returns (depth: seq<nat>)
    requires Acyclic(g)
    ensures Stable(g, depth) && Achieved(g, depth)
  {
    depth := seq(|g|, _ => 0);
    ZeroAchieved(g, depth);
    AchievedBound(g, depth);
    var bound := |g| * |g|;
    while !Stable(g, depth)
      invariant Achieved(g, depth) && Sum(depth) <= bound
      decreases bound - Sum(depth)
    {
      depth := RaiseSome(g, depth);
      AchievedBound(g, depth);
    }
  }

  /** Exactly when the loop has a state to stop in: when no task depends on itself through a chain. */
  lemma {:induction false} CanStopIffAcyclic(g: Graph)
    ensures (exists depth :: Stable(g, depth)) <==> Acyclic(g)
  {
    if depth :| Stable(g, depth) {
      StableOnlyIfAcyclic(g, depth);
    }
    if Acyclic(g) {
      var depth := StableExists(g);
    }
  }
}
