/**
  What a model call costs, and whether an estimate covers the calls of a run.

  Multipliers are arbitrary non-negative numbers, costs are counted in millionths
  of a credit, so that rounding to six decimals is rounding to a whole number.
 */
module Pricing {
  import opened Money

  /** A vendor's multipliers, and the tokens that one credit buys. */
  datatype Rates = Rates(input: real, output: real, cacheRead: real, cacheWrite: real, baseline: int, l3Hit: real)

  datatype Usage = Usage(
    input: int, output: int, cacheRead: int, cached: int, cacheWrite: int, metadataMissing: bool, l3Hit: bool)

  predicate Priced(r: Rates) {
    r.input >= 0.0 && r.output >= 0.0 && r.cacheRead >= 0.0 && r.cacheWrite >= 0.0 && r.l3Hit >= 0.0
  }

  function Clamp(x: int): nat {
    if x > 0 then x else 0
  }

  /** Tokens taken to be read from the cache: at most the input, none when the metadata is missing. */
  function CacheReads(u: Usage): nat {
    var asked := Clamp(if u.cacheRead != 0 then u.cacheRead else u.cached);
    if u.metadataMissing then 0 else if asked > Clamp(u.input) then Clamp(u.input) else asked
  }

  function CacheWrites(u: Usage): nat {
    if u.metadataMissing then 0 else Clamp(u.cacheWrite)
  }

  function Baseline(r: Rates): (b: int)
    ensures b >= 1
  {
    if r.baseline > 1 then r.baseline else 1
  }

  /** A number of tokens at a rate, added up token by token. */
  function At(tokens: nat, rate: real): real {
    if tokens == 0 then 0.0 else At(tokens - 1, rate) + rate
  }

  lemma {:induction false} AtIsProduct(tokens: nat, rate: real)
    ensures At(tokens, rate) == tokens as real * rate
  {
    if tokens > 0 { AtIsProduct(tokens - 1, rate); }
  }

  /** Tokens weighted by kind: reads are billed as reads and the other input as input. */
  function Weighted(r: Rates, u: Usage): real {
    At(Clamp(u.input) - CacheReads(u), r.input) + At(Clamp(u.output), r.output)
    + At(CacheReads(u), r.cacheRead) + At(CacheWrites(u), r.cacheWrite)
  }

  function Share(weighted: real, baseline: int): real
    requires baseline >= 1
  {
    weighted / baseline as real
  }

  function Discounted(units: real, hit: bool, l3Hit: real): real {
    if hit then units * l3Hit else units
  }

  function Units(r: Rates, u: Usage): real {
    Discounted(Share(Weighted(r, u), Baseline(r)), u.l3Hit, r.l3Hit)
  }

  /** In millionths of a credit; a negative cost is none. */
  function Millionths(cost: real): (r: int)
    ensures r >= 0
  {
    Round(Max(0.0, cost) * 1000000.0)
  }

  function CostOf(units: real, factor: real): (r: int)
    ensures r >= 0
  {
    Millionths(units * factor)
  }

  /** The cost of a call, `factor` being the product of model, role, tool and lock multipliers. */
  function Cost(r: Rates, u: Usage, factor: real): (c: int)
    ensures c >= 0
  {
    CostOf(Units(r, u), factor)
  }

  // ---- arithmetic

  lemma {:induction false} Scaled(x: real, y: real, c: real)
    requires x <= y && c >= 0.0
    ensures x * c <= y * c
  {
    assert (y - x) * c >= 0.0;
  }

  lemma {:induction false} StrictlyScaled(x: real, y: real, c: real)
    requires x < y && c > 0.0
    ensures x * c < y * c
  {
    assert (y - x) * c > 0.0;
  }

  lemma {:induction false} ShareMonotone(x: real, y: real, baseline: int)
    requires baseline >= 1 && x <= y
    ensures Share(x, baseline) <= Share(y, baseline)
  {
    var (p, q) := (Share(x, baseline), Share(y, baseline));
    assert p * baseline as real == x && q * baseline as real == y;
    if q < p { StrictlyScaled(q, p, baseline as real); }
  }

  lemma {:induction false} DiscountedMonotone(x: real, y: real, hit: bool, l3Hit: real)
    requires x <= y && l3Hit >= 0.0
    ensures Discounted(x, hit, l3Hit) <= Discounted(y, hit, l3Hit)
  {
    Scaled(x, y, l3Hit);
  }

  lemma {:induction false} MillionthsMonotone(x: real, y: real)
    requires x <= y
    ensures Millionths(x) <= Millionths(y)
  {
    RoundMonotone(Max(0.0, x) * 1000000.0, Max(0.0, y) * 1000000.0);
  }

  lemma {:induction false} CostOfMonotone(x: real, y: real, factor: real)
    requires x <= y && factor >= 0.0
    ensures CostOf(x, factor) <= CostOf(y, factor)
  {
    var (p, q) := (x * factor, y * factor);
    assert p <= q by { Scaled(x, y, factor); }
    MillionthsMonotone(p, q);
  }

  lemma {:induction false} MoreTokens(fewer: nat, more: nat, rate: real)
    requires fewer <= more && rate >= 0.0
    ensures At(fewer, rate) <= At(more, rate)
  {
    if fewer < more { MoreTokens(fewer, more - 1, rate); }
  }

  /** Moving tokens from one rate to another. */
  lemma {:induction false} TokensShift(from: nat, to: nat, moved: nat, p: real, q: real)
    requires moved <= from
    ensures At(from - moved, p) + At(to + moved, q) == At(from, p) + At(to, q) + At(moved, q - p)
  {
    if moved > 0 { TokensShift(from, to, moved - 1, p, q); }
  }

  lemma {:induction false} SignOfTokens(tokens: nat, rate: real)
    requires tokens > 0
    ensures At(tokens, rate) <= 0.0 <==> rate <= 0.0
    ensures At(tokens, rate) >= 0.0 <==> rate >= 0.0
  {
    if tokens > 1 { SignOfTokens(tokens - 1, rate); }
  }

  lemma {:induction false} WeightedNonNegative(r: Rates, u: Usage)
    requires Priced(r)
    ensures Weighted(r, u) >= 0.0
  {
    MoreTokens(0, Clamp(u.input) - CacheReads(u), r.input);
    MoreTokens(0, Clamp(u.output), r.output);
    MoreTokens(0, CacheReads(u), r.cacheRead);
    MoreTokens(0, CacheWrites(u), r.cacheWrite);
  }

  lemma {:induction false} UnitsNonNegative(r: Rates, u: Usage)
    requires Priced(r)
    ensures Units(r, u) >= 0.0
  {
    WeightedNonNegative(r, u);
    ShareMonotone(0.0, Weighted(r, u), Baseline(r));
    DiscountedMonotone(0.0, Share(Weighted(r, u), Baseline(r)), u.l3Hit, r.l3Hit);
  }

  /** A cost follows its weighted tokens. */
  lemma {:induction false} CostFollows(r: Rates, u: Usage, v: Usage, factor: real)
    requires Priced(r) && factor >= 0.0 && u.l3Hit == v.l3Hit && Weighted(r, u) <= Weighted(r, v)
    ensures Units(r, u) <= Units(r, v) && Cost(r, u, factor) <= Cost(r, v, factor)
  {
    ShareMonotone(Weighted(r, u), Weighted(r, v), Baseline(r));
    DiscountedMonotone(Share(Weighted(r, u), Baseline(r)), Share(Weighted(r, v), Baseline(r)), u.l3Hit, r.l3Hit);
    CostOfMonotone(Units(r, u), Units(r, v), factor);
  }

  // ---- what more of each kind of token does

  /** More input never costs less, even where it lets more of the cache reads count. */
  lemma {:induction false} MoreInput(r: Rates, u: Usage, more: int, factor: real)
    requires Priced(r) && factor >= 0.0 && u.input <= more
    ensures Cost(r, u, factor) <= Cost(r, u.(input := more), factor)
  {
    var v := u.(input := more);
    MoreTokens(Clamp(u.input) - CacheReads(u), Clamp(more) - CacheReads(v), r.input);
    MoreTokens(CacheReads(u), CacheReads(v), r.cacheRead);
    CostFollows(r, u, v, factor);
  }

  lemma {:induction false} MoreOutput(r: Rates, u: Usage, more: int, factor: real)
    requires Priced(r) && factor >= 0.0 && u.output <= more
    ensures Cost(r, u, factor) <= Cost(r, u.(output := more), factor)
  {
    MoreTokens(Clamp(u.output), Clamp(more), r.output);
    CostFollows(r, u, u.(output := more), factor);
  }

  lemma {:induction false} MoreCacheWrites(r: Rates, u: Usage, more: int, factor: real)
    requires Priced(r) && factor >= 0.0 && u.cacheWrite <= more
    ensures Cost(r, u, factor) <= Cost(r, u.(cacheWrite := more), factor)
  {
    MoreTokens(CacheWrites(u), CacheWrites(u.(cacheWrite := more)), r.cacheWrite);
    CostFollows(r, u, u.(cacheWrite := more), factor);
  }

  /** Usage that differs in cache reads only. */
  predicate SameButReads(u: Usage, v: Usage) {
    v == u.(cacheRead := v.cacheRead, cached := v.cached)
  }

  lemma {:induction false} ReadsShift(r: Rates, u: Usage, v: Usage)
    requires SameButReads(u, v) && CacheReads(u) <= CacheReads(v)
    ensures Weighted(r, v) == Weighted(r, u) + At(CacheReads(v) - CacheReads(u), r.cacheRead - r.input)
  {
    TokensShift(Clamp(u.input) - CacheReads(u), CacheReads(u), CacheReads(v) - CacheReads(u), r.input, r.cacheRead);
  }

  /**
    The tokens said to be read from the cache, or said so under the older name when
    none are, are billed as reads instead of as input; more than the input count as
    the input, and a negative number as none.
   */
  lemma {:induction false} ReadsAreBilled(r: Rates, u: Usage, hits: nat)
    requires !u.metadataMissing && u.input >= 0
    requires if u.cacheRead > 0 then hits == (if u.cacheRead <= u.input then u.cacheRead else u.input)
             else if u.cacheRead == 0 && u.cached > 0 then hits == (if u.cached <= u.input then u.cached else u.input)
             else hits == 0
    ensures Weighted(r, u) == Weighted(r, u.(cacheRead := 0, cached := 0)) + At(hits, r.cacheRead - r.input)
  {
    ReadsShift(r, u.(cacheRead := 0, cached := 0), u);
  }

  /** At the same number of reads, the cost does not depend on the name they came under, and follows their price. */
  lemma {:induction false} ReadsCost(r: Rates, u: Usage, factor: real)
    requires Priced(r) && factor >= 0.0 && !u.metadataMissing && 0 < u.cacheRead <= u.input
    ensures Cost(r, u, factor) == Cost(r, u.(cacheRead := 0, cached := u.cacheRead), factor)
    ensures r.cacheRead <= r.input ==> Cost(r, u, factor) <= Cost(r, u.(cacheRead := 0, cached := 0), factor)
    ensures r.cacheRead >= r.input ==> Cost(r, u, factor) >= Cost(r, u.(cacheRead := 0, cached := 0), factor)
  {
    ReadsAreBilled(r, u, u.cacheRead);
    ReadsAreBilled(r, u.(cacheRead := 0, cached := u.cacheRead), u.cacheRead);
    MoreReadsCost(r, u.(cacheRead := 0, cached := 0), u, factor);
  }

  /** What a call is billed for, kind by kind; without metadata all input is plain input and no writes are seen. */
  lemma {:induction false} TokensAreBilled(r: Rates, u: Usage, hits: nat)
    requires u.input >= 0 && u.output >= 0 && u.cacheWrite >= 0
    requires if u.metadataMissing then hits == 0
             else hits == u.cacheRead <= u.input && (u.cacheRead > 0 || u.cached <= 0)
    ensures Weighted(r, u)
            == (u.input - hits) as real * r.input + hits as real * r.cacheRead + u.output as real * r.output
             + (if u.metadataMissing then 0.0 else u.cacheWrite as real * r.cacheWrite)
  {
    var (plain, writes) := (u.input - hits, if u.metadataMissing then 0 else u.cacheWrite);
    assert Weighted(r, u) == At(plain, r.input) + At(u.output, r.output) + At(hits, r.cacheRead)
                             + At(writes, r.cacheWrite);
    AtIsProduct(plain, r.input);
    AtIsProduct(u.output, r.output);
    AtIsProduct(hits, r.cacheRead);
    AtIsProduct(writes, r.cacheWrite);
  }

  /** A cost in credits: weighted tokens over the baseline, times every multiplier, to six decimals. */
  lemma {:induction false} CostIsProduct(r: Rates, u: Usage, factor: real, units: real)
    requires Priced(r) && factor >= 0.0 && r.baseline >= 1
    requires units * r.baseline as real == (if u.l3Hit then Weighted(r, u) * r.l3Hit else Weighted(r, u))
    ensures -0.5 <= Cost(r, u, factor) as real - 1000000.0 * Product(units, factor) <= 0.5
  {
    UnitsNonNegative(r, u);
    SharesAre(Weighted(r, u), r.baseline, u.l3Hit, r.l3Hit, units);
    ProductWithin(0.0, units, factor, factor);
    RoundedCost(units, factor);
  }

  lemma {:induction false} SharesAre(weighted: real, baseline: int, hit: bool, l3Hit: real, units: real)
    requires baseline >= 1 && units * baseline as real == (if hit then weighted * l3Hit else weighted)
    ensures Discounted(Share(weighted, baseline), hit, l3Hit) == units
  {
    var (b, share) := (baseline as real, Share(weighted, baseline));
    assert share * b == weighted;
    var other := Discounted(share, hit, l3Hit);
    if hit {
      assert other == share * l3Hit;
      Associates(share, b, l3Hit);
      Associates(share, l3Hit, b);
      assert b * l3Hit == l3Hit * b;
    }
    if other < units { StrictlyScaled(other, units, b); }
    if units < other { StrictlyScaled(units, other, b); }
  }

  /** Reading more from the cache is never dearer exactly when a read is no dearer than input. */
  lemma {:induction false} MoreReadsIff(r: Rates, u: Usage, v: Usage)
    requires SameButReads(u, v) && CacheReads(u) < CacheReads(v)
    ensures Weighted(r, v) <= Weighted(r, u) <==> r.cacheRead <= r.input
  {
    ReadsShift(r, u, v);
    SignOfTokens(CacheReads(v) - CacheReads(u), r.cacheRead - r.input);
  }

  lemma {:induction false} MoreReadsCost(r: Rates, u: Usage, v: Usage, factor: real)
    requires Priced(r) && factor >= 0.0 && SameButReads(u, v) && CacheReads(u) <= CacheReads(v)
    ensures r.cacheRead <= r.input ==> Cost(r, v, factor) <= Cost(r, u, factor)
    ensures r.cacheRead >= r.input ==> Cost(r, u, factor) <= Cost(r, v, factor)
  {
    ReadsShift(r, u, v);
    if CacheReads(u) < CacheReads(v) { SignOfTokens(CacheReads(v) - CacheReads(u), r.cacheRead - r.input); }
    if r.cacheRead <= r.input { CostFollows(r, v, u, factor); }
    if r.cacheRead >= r.input { CostFollows(r, u, v, factor); }
  }

  /** A cache hit is never dearer exactly when its multiplier is at most one, or nothing was used. */
  lemma {:induction false} CacheHitIff(r: Rates, u: Usage)
    requires Priced(r) && !u.l3Hit
    ensures Units(r, u.(l3Hit := true)) <= Units(r, u) <==> r.l3Hit <= 1.0 || Units(r, u) == 0.0
  {
    UnitsNonNegative(r, u);
    var x := Units(r, u);
    assert Units(r, u.(l3Hit := true)) == Discounted(x, true, r.l3Hit);
    if r.l3Hit <= 1.0 {
      Scaled(r.l3Hit, 1.0, x);
    } else if x > 0.0 {
      StrictlyScaled(1.0, r.l3Hit, x);
    }
  }

  lemma {:induction false} CacheHitCost(r: Rates, u: Usage, factor: real)
    requires Priced(r) && factor >= 0.0 && r.l3Hit <= 1.0
    ensures Cost(r, u.(l3Hit := true), factor) <= Cost(r, u.(l3Hit := false), factor)
  {
    CacheHitIff(r, u.(l3Hit := false));
    CostOfMonotone(Units(r, u.(l3Hit := true)), Units(r, u.(l3Hit := false)), factor);
  }

  lemma {:induction false} MissingShifts(r: Rates, u: Usage)
    requires !u.metadataMissing
    ensures Weighted(r, u.(metadataMissing := true)) + At(CacheReads(u), r.cacheRead - r.input)
        + At(CacheWrites(u), r.cacheWrite)
            == Weighted(r, u)
  {
    TokensShift(Clamp(u.input), 0, CacheReads(u), r.input, r.cacheRead);
  }

  /** Losing the cache metadata undercuts nothing exactly when what reads save covers what writes cost. */
  lemma {:induction false} MissingMetadataIff(r: Rates, u: Usage)
    requires !u.metadataMissing
    ensures Weighted(r, u) <= Weighted(r, u.(metadataMissing := true))
            <==> At(CacheWrites(u), r.cacheWrite) <= -At(CacheReads(u), r.cacheRead - r.input)
  {
    MissingShifts(r, u);
  }

  /** So it never undercuts the same call with known reads and no writes. */
  lemma {:induction false} MissingMetadataCost(r: Rates, u: Usage, factor: real)
    requires Priced(r) && factor >= 0.0 && !u.metadataMissing && u.cacheWrite <= 0 && r.cacheRead <= r.input
    ensures Cost(r, u, factor) <= Cost(r, u.(metadataMissing := true), factor)
  {
    MissingMetadataIff(r, u);
    if CacheReads(u) > 0 { SignOfTokens(CacheReads(u), r.cacheRead - r.input); }
    CostFollows(r, u, u.(metadataMissing := true), factor);
  }

  // ---- estimates

  /** What an estimate is asked for: tokens per call, calls per role, roles. */
  datatype Plan = Plan(tokens: nat, iterations: int, roles: int)

  function AtLeastOne(x: int): (r: nat)
    ensures r >= 1
  {
    if x > 1 then x else 1
  }

  function Calls(iterations: nat, roles: nat): (n: nat)
    ensures iterations > 0 && roles > 0 ==> n > 0
  {
    iterations * roles
  }

  function CallsPlanned(p: Plan): (n: nat)
    ensures n > 0
  {
    Calls(AtLeastOne(p.iterations), AtLeastOne(p.roles))
  }

  /** Fewer than one iteration or role counts as one. */
  lemma {:induction false} CallsPlannedIs(p: Plan)
    ensures p.iterations >= 1 && p.roles >= 1 ==> CallsPlanned(p) == p.iterations * p.roles
    ensures p.iterations < 1 ==> CallsPlanned(p) == CallsPlanned(p.(iterations := 1))
    ensures p.roles < 1 ==> CallsPlanned(p) == CallsPlanned(p.(roles := 1))
  {
  }

  function Product(x: real, y: real): real {
    x * y
  }

  /** Units of a call with as many input and output tokens as planned. */
  function PlannedUnits(r: Rates, p: Plan): real {
    Share(At(p.tokens, r.input) + At(p.tokens, r.output), Baseline(r))
  }

  /** The most that a planned call can cost when its factor stays within a bound. */
  function PerCall(r: Rates, p: Plan, bound: real): real {
    Product(PlannedUnits(r, p), bound)
  }

  function Buffered(units: real, model: real, iterations: nat, roles: nat, buffer: real): real {
    units * model * iterations as real * roles as real * buffer
  }

  function RawEstimate(r: Rates, p: Plan, model: real, buffer: real): real {
    Buffered(PlannedUnits(r, p), model, AtLeastOne(p.iterations), AtLeastOne(p.roles), buffer)
  }

  /** The estimate in units of 0.0001 credit. */
  function Estimate(r: Rates, p: Plan, model: real, buffer: real): int {
    Round(RawEstimate(r, p, model, buffer) * 10000.0)
  }

  lemma {:induction false} Associates(x: real, y: real, z: real)
    ensures (x * y) * z == x * (y * z)
  {
  }

  lemma {:induction false} Reordered(units: real, model: real, i: real, k: real, buffer: real)
    ensures units * model * i * k * buffer == (i * k) * Product(units, Product(model, buffer))
  {
    var (m, n) := (units * model, i * k);
    Associates(m, i, k);
    Associates(n, m, buffer);
    Associates(units, model, buffer);
    assert m * n == n * m;
  }

  lemma {:induction false} CallsAsReal(i: nat, k: nat)
    ensures Calls(i, k) as real == i as real * k as real
  {
  }

  lemma {:induction false} BufferedSplits(units: real, model: real, i: nat, k: nat, buffer: real)
    ensures Buffered(units, model, i, k, buffer) == At(Calls(i, k), Product(units, Product(model, buffer)))
  {
    var c := Product(units, Product(model, buffer));
    CallsAsReal(i, k);
    Reordered(units, model, i as real, k as real, buffer);
    AtIsProduct(Calls(i, k), c);
  }

  /** The estimate is the most a planned call can cost, once per planned call. */
  lemma {:induction false} EstimateIsPerCall(r: Rates, p: Plan, model: real, buffer: real)
    ensures RawEstimate(r, p, model, buffer) == At(CallsPlanned(p), PerCall(r, p, Product(model, buffer)))
  {
    BufferedSplits(PlannedUnits(r, p), model, AtLeastOne(p.iterations), AtLeastOne(p.roles), buffer);
  }

  /** A call the plan allows for: no more tokens than planned, nothing written to a cache. */
  predicate Planned(u: Usage, p: Plan) {
    u.input <= p.tokens && u.output <= p.tokens && u.cacheWrite <= 0
  }

  lemma {:induction false} PlannedCall(r: Rates, u: Usage, p: Plan)
    requires Priced(r) && r.cacheRead <= r.input && r.l3Hit <= 1.0 && Planned(u, p)
    ensures 0.0 <= Units(r, u) <= PlannedUnits(r, p)
  {
    var bare := u.(cacheRead := 0, cached := 0);
    ReadsShift(r, bare, u);
    if CacheReads(u) > 0 { SignOfTokens(CacheReads(u), r.cacheRead - r.input); }
    MoreTokens(Clamp(u.input), p.tokens, r.input);
    MoreTokens(Clamp(u.output), p.tokens, r.output);
    ShareMonotone(Weighted(r, u), At(p.tokens, r.input) + At(p.tokens, r.output), Baseline(r));
    UnitsNonNegative(r, u);
    WeightedNonNegative(r, u);
    ShareMonotone(0.0, Weighted(r, u), Baseline(r));
    DiscountedAtMost(Share(Weighted(r, u), Baseline(r)), u.l3Hit, r.l3Hit);
  }

  lemma {:induction false} DiscountedAtMost(units: real, hit: bool, l3Hit: real)
    requires units >= 0.0 && l3Hit <= 1.0
    ensures Discounted(units, hit, l3Hit) <= units
  {
    Scaled(l3Hit, 1.0, units);
    assert l3Hit * units == units * l3Hit;
  }

  function TotalCost(r: Rates, calls: seq<(Usage, real)>): int {
    if |calls| == 0 then 0
    else TotalCost(r, calls[..|calls| - 1]) + Cost(r, calls[|calls| - 1].0, calls[|calls| - 1].1)
  }

  /** The cost of one call, before it is rounded, is at most its share of the estimate. */
  lemma {:induction false} CallWithin(r: Rates, u: Usage, p: Plan, factor: real, bound: real)
    requires Priced(r) && r.cacheRead <= r.input && r.l3Hit <= 1.0 && Planned(u, p) && 0.0 <= factor <= bound
    ensures Cost(r, u, factor) as real <= 1000000.0 * PerCall(r, p, bound) + 0.5
  {
    PlannedCall(r, u, p);
    ProductWithin(Units(r, u), PlannedUnits(r, p), factor, bound);
    CostNearProduct(Units(r, u), factor, PerCall(r, p, bound));
  }

  lemma {:induction false} ProductWithin(x: real, w: real, factor: real, bound: real)
    requires 0.0 <= x <= w && 0.0 <= factor <= bound
    ensures 0.0 <= Product(x, factor) <= Product(w, bound)
  {
    Scaled(0.0, x, factor);
    Scaled(x, w, factor);
    Scaled(factor, bound, w);
  }

  lemma {:induction false} CostNearProduct(x: real, factor: real, most: real)
    requires 0.0 <= Product(x, factor) <= most
    ensures CostOf(x, factor) as real <= 1000000.0 * most + 0.5
  {
    var cost := x * factor;
    assert CostOf(x, factor) == Round(cost * 1000000.0);
  }

  lemma {:induction false} CallsWithin(r: Rates, calls: seq<(Usage, real)>, p: Plan, bound: real)
    requires Priced(r) && r.cacheRead <= r.input && r.l3Hit <= 1.0
    requires forall c <- calls :: Planned(c.0, p) && 0.0 <= c.1 <= bound
    ensures TotalCost(r, calls) as real <= 1000000.0 * At(|calls|, PerCall(r, p, bound)) + At(|calls|, 0.5)
  {
    if |calls| > 0 {
      var init := calls[..|calls| - 1];
      var last := calls[|calls| - 1];
      assert last in calls;
      forall c <- init ensures Planned(c.0, p) && 0.0 <= c.1 <= bound { assert c in calls; }
      CallsWithin(r, init, p, bound);
      CallWithin(r, last.0, p, last.1, bound);
    }
  }

  /**
    For every run within the plan: while the role, tool and lock multipliers of no
    call exceed the buffer, the estimate covers what the calls cost, up to the
    rounding of each cost and of the estimate itself.
   */
  lemma {:induction false} EstimateCovers(r: Rates, calls: seq<(Usage, real)>, p: Plan, model: real, buffer: real)
    requires Priced(r) && r.cacheRead <= r.input && r.l3Hit <= 1.0 && Product(model, buffer) >= 0.0
    requires |calls| <= CallsPlanned(p)
    requires forall c <- calls :: Planned(c.0, p) && 0.0 <= c.1 <= Product(model, buffer)
    ensures TotalCost(r, calls) as real <= 100.0 * Estimate(r, p, model, buffer) as real + 50.0 + At(|calls|, 0.5)
  {
    var bound := Product(model, buffer);
    CallsWithin(r, calls, p, bound);
    PlannedNonNegative(r, p);
    ProductWithin(0.0, PlannedUnits(r, p), bound, bound);
    MoreTokens(|calls|, CallsPlanned(p), PerCall(r, p, bound));
    EstimateIsPerCall(r, p, model, buffer);
    EstimateNear(RawEstimate(r, p, model, buffer));
  }

  lemma {:induction false} EstimateNear(raw: real)
    ensures -50.0 <= 100.0 * Round(raw * 10000.0) as real - raw * 1000000.0 <= 50.0
  {
  }

  lemma {:induction false} PlannedNonNegative(r: Rates, p: Plan)
    requires Priced(r)
    ensures PlannedUnits(r, p) >= 0.0
  {
    MoreTokens(0, p.tokens, r.input);
    MoreTokens(0, p.tokens, r.output);
    ShareMonotone(0.0, At(p.tokens, r.input) + At(p.tokens, r.output), Baseline(r));
  }

  // ---- runs of calls that use all that was planned

  /** A call with exactly the planned tokens, none of them from a cache. */
  predicate Full(u: Usage, p: Plan) {
    u.input == p.tokens && u.output == p.tokens && u.cacheRead == 0 && u.cached == 0 && u.cacheWrite <= 0 && !u.l3Hit
  }

  lemma {:induction false} FullUnits(r: Rates, u: Usage, p: Plan)
    requires Full(u, p)
    ensures Units(r, u) == PlannedUnits(r, p)
  {
    assert CacheReads(u) == 0 && CacheWrites(u) == 0;
  }

  /** The cost of such a call, before it is rounded, is its share of the estimate at its own factor. */
  lemma {:induction false} FullCallCost(r: Rates, u: Usage, p: Plan, factor: real)
    requires Priced(r) && Full(u, p) && factor >= 0.0
    ensures -0.5 <= Cost(r, u, factor) as real - 1000000.0 * PerCall(r, p, factor) <= 0.5
  {
    FullUnits(r, u, p);
    PlannedNonNegative(r, p);
    ProductWithin(0.0, PlannedUnits(r, p), factor, factor);
    RoundedCost(PlannedUnits(r, p), factor);
  }

  lemma {:induction false} RoundedCost(units: real, factor: real)
    requires Product(units, factor) >= 0.0
    ensures -0.5 <= CostOf(units, factor) as real - 1000000.0 * Product(units, factor) <= 0.5
  {
  }

  lemma {:induction false} FullRunCost(r: Rates, calls: seq<(Usage, real)>, p: Plan, factor: real)
    requires Priced(r) && factor >= 0.0 && forall c <- calls :: Full(c.0, p) && c.1 == factor
    ensures var exact := 1000000.0 * At(|calls|, PerCall(r, p, factor));
      -At(|calls|, 0.5) <= TotalCost(r, calls) as real - exact <= At(|calls|, 0.5)
  {
    if |calls| > 0 {
      var init := calls[..|calls| - 1];
      var last := calls[|calls| - 1];
      assert last in calls;
      forall c <- init ensures Full(c.0, p) && c.1 == factor { assert c in calls; }
      FullRunCost(r, init, p, factor);
      FullCallCost(r, last.0, p, factor);
    }
  }

  /** Before any rounding, by how much a full run exceeds its estimate; in millionths of a credit. */
  function Excess(r: Rates, p: Plan, model: real, buffer: real, factor: real): real {
    1000000.0 * At(CallsPlanned(p), PerCall(r, p, factor) - PerCall(r, p, Product(model, buffer)))
  }

  /** What rounding every cost, and the estimate, can hide. */
  function Slack(p: Plan): real {
    50.0 + At(CallsPlanned(p), 0.5)
  }

  lemma {:induction false} AtSubtracts(tokens: nat, x: real, y: real)
    ensures At(tokens, x - y) == At(tokens, x) - At(tokens, y)
  {
    if tokens > 0 { AtSubtracts(tokens - 1, x, y); }
  }

  /** What a run costs beyond its estimate, in millionths of a credit. */
  function Overrun(r: Rates, calls: seq<(Usage, real)>, p: Plan, model: real, buffer: real): real {
    TotalCost(r, calls) as real - 100.0 * Estimate(r, p, model, buffer) as real
  }

  lemma {:induction false} Nearby(cost: real, estimate: real, exact: real, raw: real, half: real)
    requires -half <= cost - 1000000.0 * exact <= half
    requires -50.0 <= 100.0 * estimate - 1000000.0 * raw <= 50.0
    ensures -(50.0 + half) <= cost - 100.0 * estimate - 1000000.0 * (exact - raw) <= 50.0 + half
  {
  }

  lemma {:induction false} OverrunNearExcess(r: Rates, calls: seq<(Usage, real)>, p: Plan, model: real, buffer: real,
                                             factor: real)
    requires Priced(r) && factor >= 0.0 && |calls| == CallsPlanned(p)
    requires forall c <- calls :: Full(c.0, p) && c.1 == factor
    ensures -Slack(p) <= Overrun(r, calls, p, model, buffer) - Excess(r, p, model, buffer, factor) <= Slack(p)
  {
    var (x, y) := (PerCall(r, p, factor), PerCall(r, p, Product(model, buffer)));
    var n := CallsPlanned(p);
    FullRunCost(r, calls, p, factor);
    EstimateIsPerCall(r, p, model, buffer);
    EstimateNear(RawEstimate(r, p, model, buffer));
    AtSubtracts(n, x, y);
    Nearby(TotalCost(r, calls) as real, Estimate(r, p, model, buffer) as real, At(n, x), At(n, y), At(n, 0.5));
  }

  /**
    For every full run: what it costs exceeds the estimate by the excess of its
    factor over the buffer, within the slack of rounding. So unless the difference
    drowns in rounding, the run is covered exactly when its factor is within the
    buffer, and costs more than was reserved exactly when it is not.
   */
  lemma {:induction false} FullRunCoveredIff(r: Rates, calls: seq<(Usage, real)>, p: Plan, model: real, buffer: real,
                                             factor: real, over: real, excess: real)
    requires Priced(r) && factor >= 0.0 && |calls| == CallsPlanned(p)
    requires forall c <- calls :: Full(c.0, p) && c.1 == factor
    requires over == Overrun(r, calls, p, model, buffer) && excess == Excess(r, p, model, buffer, factor)
    ensures -Slack(p) <= over - excess <= Slack(p)
    ensures excess < -Slack(p) || excess > Slack(p) ==> (over > 0.0 <==> factor > Product(model, buffer))
    ensures excess > 0.0 <==> factor > Product(model, buffer) && PlannedUnits(r, p) > 0.0
    ensures excess == 0.0 <==> factor == Product(model, buffer) || PlannedUnits(r, p) == 0.0
  {
    OverrunNearExcess(r, calls, p, model, buffer, factor);
    ExcessSign(r, p, model, buffer, factor);
    PlannedNonNegative(r, p);
    SlackNonNegative(CallsPlanned(p));
  }

  lemma {:induction false} SlackNonNegative(n: nat)
    ensures At(n, 0.5) >= 0.0
  {
    if n > 0 { SlackNonNegative(n - 1); }
  }

  /** The excess has the sign of what the factor exceeds the buffer by, unless nothing is used. */
  lemma {:induction false} ExcessSign(r: Rates, p: Plan, model: real, buffer: real, factor: real)
    requires Priced(r)
    ensures var (excess, bound) := (Excess(r, p, model, buffer, factor), Product(model, buffer));
      && (excess > 0.0 <==> factor > bound && PlannedUnits(r, p) > 0.0)
      && (excess == 0.0 <==> factor == bound || PlannedUnits(r, p) == 0.0)
  {
    PlannedNonNegative(r, p);
    var bound := Product(model, buffer);
    var (x, y) := (PerCall(r, p, factor), PerCall(r, p, bound));
    AtSubtracts(CallsPlanned(p), x, y);
    RatesCompare(CallsPlanned(p), x, y);
    RatesCompare(CallsPlanned(p), y, x);
    var w := PlannedUnits(r, p);
    if w > 0.0 {
      SignOfProduct(w, factor, bound);
      SignOfProduct(w, bound, factor);
    } else {
      assert x == 0.0 && y == 0.0;
    }
  }

  /** A call of a role with weight 10 costs 20 credits where the default buffer of 1.3 reserves 2.6. */
  lemma {:induction false} HeavyRoleOverruns(r: Rates, p: Plan, u: Usage)
    requires r == Rates(1.0, 1.0, 0.1, 1.25, 1000, 0.1) && p.tokens == 1000 && p.iterations == 1 && p.roles == 1
    requires Full(u, p)
    ensures Estimate(r, p, 1.0, 1.3) == 26000 && TotalCost(r, [(u, 10.0)]) == 20000000
  {
    FullUnits(r, u, p);
    AtIsProduct(1000, 1.0);
    assert PlannedUnits(r, p) == 2.0;
    RoundWhole(26000);
    RoundWhole(20000000);
    assert [(u, 10.0)][..0] == [];
  }

  lemma {:induction false} Flipped(x: real, y: real)
    ensures Product(x, y) == y * x
  {
  }

  lemma {:induction false} SignOfProduct(w: real, x: real, y: real)
    requires w > 0.0
    ensures Product(w, x) <= Product(w, y) <==> x <= y
  {
    Flipped(w, x);
    Flipped(w, y);
    ScaledIff(x * w, y * w, x, y, w);
  }

  lemma {:induction false} ScaledIff(p: real, q: real, x: real, y: real, w: real)
    requires w > 0.0 && p == x * w && q == y * w
    ensures p <= q <==> x <= y
  {
    if x <= y { Scaled(x, y, w); } else { StrictlyScaled(y, x, w); }
  }

  lemma {:induction false} RatesCompare(tokens: nat, p: real, q: real)
    requires tokens > 0
    ensures At(tokens, p) <= At(tokens, q) <==> p <= q
  {
    if tokens > 1 { RatesCompare(tokens - 1, p, q); }
  }
}
