/**
  What becomes of the hours settled when debits can be refused: over every run of
  attempts, billed hours are hours posted, hours refused and hours worth nothing.
 */
module DockerCharges {
  import opened Collections
  import opened Money
  import opened DockerMeter

  // ---- a refused stop takes effect as a sample

  /** What an attempt amounts to: a stop that raises has settled the uptime and stopped nothing. */
  function Effect(t: Tracker, a: Attempt, month: int, terms: User -> Terms): Event {
    if a.event.Stop? && Charges(t, a, month, terms).Refused? then Sample(a.event.u, a.event.s, a.event.uptime)
    else a.event
  }

  function Happened(h: seq<Attempt>, month: int, terms: User -> Terms): seq<Event> {
    if |h| == 0 then []
    else
      var init := h[..|h| - 1];
      Happened(init, month, terms) + [Effect(Metered(init, month, terms), h[|h| - 1], month, terms)]
  }

  lemma {:induction false} EffectIs(t: Tracker, a: Attempt, month: int, terms: User -> Terms)
    ensures Meter(t, a, month, terms) == Step(t, Effect(t, a, month, terms), month, terms)
  {
  }

  /** The tracker after any attempts is the one after the events that took effect. */
  lemma {:induction false} MeteredIsRun(h: seq<Attempt>, month: int, terms: User -> Terms)
    ensures Metered(h, month, terms) == Run(Happened(h, month, terms), month, terms)
  {
    if |h| > 0 {
      var init := h[..|h| - 1];
      MeteredIsRun(init, month, terms);
      var before := Happened(init, month, terms);
      var e := Effect(Metered(init, month, terms), h[|h| - 1], month, terms);
      assert (before + [e])[..|before|] == before;
      EffectIs(Metered(init, month, terms), h[|h| - 1], month, terms);
    }
  }

  predicate AllNamed(h: seq<Attempt>) {
    forall a <- h :: a.event.u != ""
  }

  /** Each attempt took effect on the user and the service it was made for. */
  lemma {:induction false} HappenedTo(h: seq<Attempt>, month: int, terms: User -> Terms, happened: seq<Event>)
    requires happened == Happened(h, month, terms)
    ensures |happened| == |h|
    ensures forall i :: 0 <= i < |h| ==> happened[i].u == h[i].event.u && happened[i].s == h[i].event.s
  {
    if |h| > 0 {
      var init := h[..|h| - 1];
      var before := Happened(init, month, terms);
      HappenedTo(init, month, terms, before);
      assert happened == before + [happened[|before|]];
    }
  }

  lemma {:induction false} HappenedNamed(h: seq<Attempt>, month: int, terms: User -> Terms)
    requires AllNamed(h)
    ensures Named(Happened(h, month, terms))
  {
    HappenedTo(h, month, terms, Happened(h, month, terms));
    forall e <- Happened(h, month, terms) ensures e.u != "" {
      var i :| 0 <= i < |h| && Happened(h, month, terms)[i] == e;
      assert h[i] in h;
    }
  }

  /** Per service, the uptime billed is the largest settled since the last stop that was not refused. */
  lemma {:induction false} MeteredIsPeak(h: seq<Attempt>, month: int, terms: User -> Terms, u: User, s: Service)
    requires AllNamed(h)
    ensures Billed(Metered(h, month, terms), u, s) == SegmentsOf(Happened(h, month, terms), u, s).peak
  {
    MeteredIsRun(h, month, terms);
    HappenedNamed(h, month, terms);
    BilledIsPeak(Happened(h, month, terms), month, terms, u, s);
  }

  // ---- what becomes of the hours

  /** Hours to bill are posted, refused for want of credit, or worth nothing once their cost is rounded. */
  datatype Fate = Posted | Unpaid | Worthless

  function SplitOf(t: Tracker, e: Event, month: int, terms: User -> Terms): Split {
    if e.Drop? then Split(0, 0)
    else SplitRuntime(Hours(Gain(Billed(t, e.u, e.s), e.uptime)), terms(e.u).allowance, Used(t, e.u, month))
  }

  /** In millionths of a dollar. */
  function CostOf(t: Tracker, e: Event, month: int, terms: User -> Terms): int {
    Round(Dollars(terms(e.u).rate(e.s), SplitOf(t, e, month, terms).billable))
  }

  function FateOf(t: Tracker, a: Attempt, month: int, terms: User -> Terms): Fate {
    if CostOf(t, a.event, month, terms) <= 0 then Worthless else if a.affordable then Posted else Unpaid
  }

  /** Which is what the charge says. */
  lemma {:induction false} FateIsCharge(t: Tracker, a: Attempt, month: int, terms: User -> Terms)
    requires a.event.u != ""
    ensures var c := Charges(t, a, month, terms);
      var (split, cost) := (SplitOf(t, a.event, month, terms), CostOf(t, a.event, month, terms));
      && (FateOf(t, a, month, terms) == Unpaid <==> c.Refused?)
      && (FateOf(t, a, month, terms) == Posted <==> c.Charged? && c.cost > 0)
      && (c == NoCharge || (c.split == split && c.cost == cost))
      && split.billable >= 0 && (cost > 0 ==> split.billable > 0)
  {
    ChargesIs(t, a, month, terms);
    BillableNonNegative(t, a.event, month, terms);
    NothingCosts(terms(a.event.u).rate(a.event.s), SplitOf(t, a.event, month, terms).billable);
  }

  lemma {:induction false} ChargesIs(t: Tracker, a: Attempt, month: int, terms: User -> Terms)
    requires a.event.u != ""
    ensures var (split, rate) := (SplitOf(t, a.event, month, terms), terms(a.event.u).rate(a.event.s));
      Charges(t, a, month, terms) == Priced(split, rate, a.affordable)
  {
    var rate := terms(a.event.u).rate(a.event.s);
    NoGainNoSplit(terms(a.event.u).allowance, Used(t, a.event.u, month));
    NothingCosts(rate, 0);
  }

  lemma {:induction false} NothingCosts(rate: real, billable: int)
    ensures billable == 0 ==> Round(Dollars(rate, billable)) == 0
  {
    if billable == 0 {
      assert Dollars(rate, billable) == 0.0;
      RoundWhole(0);
    }
  }

  lemma {:induction false} BillableNonNegative(t: Tracker, e: Event, month: int, terms: User -> Terms)
    ensures SplitOf(t, e, month, terms).billable >= 0
  {
    RoundWhole(0);
    if !e.Drop? {
      var delta := Max(0.0, Hours(Gain(Billed(t, e.u, e.s), e.uptime)));
      var remaining := Max(0.0, terms(e.u).allowance as real - Max(0.0, Used(t, e.u, month)));
      RoundMonotone(0.0, Max(0.0, delta - Min(delta, remaining)));
    }
  }

  /** A user's billable hours with one fate, in millionths. */
  function HoursBy(h: seq<Attempt>, f: Fate, u: User, month: int, terms: User -> Terms): int {
    if |h| == 0 then 0
    else
      var (t, a) := (Metered(h[..|h| - 1], month, terms), h[|h| - 1]);
      HoursBy(h[..|h| - 1], f, u, month, terms)
      + if a.event.u == u && FateOf(t, a, month, terms) == f then SplitOf(t, a.event, month, terms).billable else 0
  }

  lemma {:induction false} LastSplitIs(h: seq<Attempt>, month: int, terms: User -> Terms)
    requires AllNamed(h) && |h| > 0
    ensures LastSplit(Happened(h, month, terms), month, terms)
            == SplitOf(Metered(h[..|h| - 1], month, terms), h[|h| - 1].event, month, terms)
  {
    var (init, a) := (h[..|h| - 1], h[|h| - 1]);
    var before := Happened(init, month, terms);
    assert a in h && AllNamed(init);
    MeteredIsRun(init, month, terms);
    MeteredIsPeak(init, month, terms, a.event.u, a.event.s);
    assert Happened(h, month, terms)[..|before|] == before;
    NoGainNoSplit(terms(a.event.u).allowance, Used(Metered(init, month, terms), a.event.u, month));
  }

  /** Over every run of attempts, billed hours are hours posted, hours refused and hours worth nothing. */
  lemma {:induction false} HoursHaveFates(h: seq<Attempt>, month: int, terms: User -> Terms, u: User)
    requires AllNamed(h)
    ensures BilledHours(Happened(h, month, terms), u, month, terms)
            == HoursBy(h, Posted, u, month, terms) + HoursBy(h, Unpaid, u, month, terms)
               + HoursBy(h, Worthless, u, month, terms)
  {
    if |h| > 0 {
      var (init, a) := (h[..|h| - 1], h[|h| - 1]);
      assert AllNamed(init);
      HoursHaveFates(init, month, terms, u);
      LastSplitIs(h, month, terms);
      var before := Happened(init, month, terms);
      assert Happened(h, month, terms)[..|before|] == before;
    }
  }

  /** Some settlement of the user had a positive cost the user could not afford. */
  predicate SomeRefused(h: seq<Attempt>, month: int, terms: User -> Terms, u: User) {
    exists i :: 0 <= i < |h| && h[i].event.u == u && RefusedAt(h, i, month, terms)
  }

  predicate RefusedAt(h: seq<Attempt>, i: nat, month: int, terms: User -> Terms)
    requires i < |h|
  {
    !h[i].affordable && CostOf(Metered(h[..i], month, terms), h[i].event, month, terms) > 0
  }

  lemma {:induction false} SomeRefusedGrows(h: seq<Attempt>, month: int, terms: User -> Terms, u: User)
    requires |h| > 0
    ensures SomeRefused(h, month, terms, u)
            <==> SomeRefused(h[..|h| - 1], month, terms, u)
                 || (h[|h| - 1].event.u == u && RefusedAt(h, |h| - 1, month, terms))
  {
    var init := h[..|h| - 1];
    forall i | 0 <= i < |init| ensures RefusedAt(init, i, month, terms) <==> RefusedAt(h, i, month, terms) {
      assert init[..i] == h[..i];
    }
  }

  lemma {:induction false} UnpaidIff(h: seq<Attempt>, month: int, terms: User -> Terms, u: User)
    requires AllNamed(h)
    ensures HoursBy(h, Unpaid, u, month, terms) >= 0
    ensures HoursBy(h, Unpaid, u, month, terms) > 0 <==> SomeRefused(h, month, terms, u)
  {
    if |h| > 0 {
      var (init, a) := (h[..|h| - 1], h[|h| - 1]);
      assert a in h && AllNamed(init);
      UnpaidIff(init, month, terms, u);
      SomeRefusedGrows(h, month, terms, u);
      FateIsCharge(Metered(init, month, terms), a, month, terms);
    }
  }

  /**
    For every run: all hours beyond the allowance whose cost is not nothing are
    posted exactly when no settlement with a positive cost was unaffordable.
   */
  lemma {:induction false} AllPostedIff(h: seq<Attempt>, month: int, terms: User -> Terms, u: User)
    requires AllNamed(h)
    ensures HoursBy(h, Posted, u, month, terms) + HoursBy(h, Worthless, u, month, terms)
            == BilledHours(Happened(h, month, terms), u, month, terms)
            <==> !SomeRefused(h, month, terms, u)
  {
    HoursHaveFates(h, month, terms, u);
    UnpaidIff(h, month, terms, u);
  }

  /**
    At every point of every run, the uptime of a user's services, a refused stop
    ending no segment, is what was granted free, posted, refused or worth nothing,
    within half a millionth of an hour per settlement and exactly when hours are
    exact: what was refused is never posted later.
   */
  lemma {:induction false} UptimeHasFates(h: seq<Attempt>, month: int, terms: User -> Terms, u: User,
                                          services: seq<Service>)
    requires AllNamed(h)
    requires Distinct(services) && forall a <- h :: a.event.u == u ==> a.event.s in services
    ensures var total := Hours(UptimeOver(Happened(h, month, terms), u, services));
      var used := Used(Metered(h, month, terms), u, month);
      var billed := HoursBy(h, Posted, u, month, terms) + HoursBy(h, Unpaid, u, month, terms)
                    + HoursBy(h, Worthless, u, month, terms);
      var n := Settlements(Happened(h, month, terms), u) as real;
      && used <= terms(u).allowance as real
      && -n <= 2.0 * (used + billed as real - total) <= n
      && (ExactHours(Happened(h, month, terms), u) ==>
            used == Min(total, terms(u).allowance as real) && billed as real == total - used)
  {
    var happened := Happened(h, month, terms);
    HappenedTo(h, month, terms, happened);
    HappenedNamed(h, month, terms);
    forall e <- happened ensures e.u == u ==> e.s in services {
      var i :| 0 <= i < |h| && happened[i] == e;
      assert h[i] in h;
    }
    HoursAccountedFor(happened, month, terms, u);
    SecondsAreUptime(happened, u, services);
    if ExactHours(happened, u) { ClosedForm(happened, month, terms, u, services); }
    FreeIsAllowanceOrAll(happened, month, terms, u);
    MeteredIsRun(h, month, terms);
    HoursHaveFates(h, month, terms, u);
  }

  // ---- what posted hours cost

  /** Hours, cost and number of settlements. */
  datatype Bill = Bill(hours: int, cost: int, count: nat)

  function Added(b: Bill, hours: int, cost: int): Bill {
    Bill(b.hours + hours, b.cost + cost, b.count + 1)
  }

  /** A user's settlements of one service with one fate. */
  function BillOf(h: seq<Attempt>, f: Fate, u: User, s: Service, month: int, terms: User -> Terms): Bill {
    if |h| == 0 then Bill(0, 0, 0)
    else
      var (t, a) := (Metered(h[..|h| - 1], month, terms), h[|h| - 1]);
      var before := BillOf(h[..|h| - 1], f, u, s, month, terms);
      if a.event.u == u && a.event.s == s && FateOf(t, a, month, terms) == f then
        Added(before, SplitOf(t, a.event, month, terms).billable, CostOf(t, a.event, month, terms))
      else before
  }

  function HoursOver(h: seq<Attempt>, f: Fate, u: User, services: seq<Service>, month: int, terms: User -> Terms): int
  {
    if |services| == 0 then 0
    else HoursOver(h, f, u, services[..|services| - 1], month, terms)
         + BillOf(h, f, u, services[|services| - 1], month, terms).hours
  }

  lemma {:induction false} DollarsAdd(rate: real, hours: int, more: int)
    ensures Dollars(rate, 0) == 0.0
    ensures Dollars(rate, hours + more) == Dollars(rate, hours) + Dollars(rate, more)
  {
    assert rate * (hours as real + more as real) == rate * hours as real + rate * more as real;
  }

  /** The cost is the rate times the hours, within half a millionth of a dollar per settlement. */
  predicate Fair(rate: real, b: Bill) {
    -(b.count as real) <= 2.0 * (b.cost as real - Dollars(rate, b.hours)) <= b.count as real
  }

  lemma {:induction false} StaysFair(rate: real, b: Bill, more: int)
    requires Fair(rate, b)
    ensures Fair(rate, Added(b, more, Round(Dollars(rate, more))))
  {
    DollarsAdd(rate, b.hours, more);
    var (x, y) := (Dollars(rate, b.hours), Dollars(rate, more));
    assert -0.5 <= y - Round(y) as real <= 0.5;
  }

  /**
    Over every run, what a service's settlements cost is its rate times their
    billable hours within half a millionth of a dollar for each of them, for what
    was posted and for what was refused or rounded away.
   */
  lemma {:induction false} CostIsRateTimesHours(h: seq<Attempt>, f: Fate, u: User, s: Service, month: int,
                                                terms: User -> Terms)
    ensures Fair(terms(u).rate(s), BillOf(h, f, u, s, month, terms))
  {
    if |h| == 0 {
      DollarsAdd(terms(u).rate(s), 0, 0);
    } else {
      var (init, a) := (h[..|h| - 1], h[|h| - 1]);
      var t := Metered(init, month, terms);
      CostIsRateTimesHours(init, f, u, s, month, terms);
      StaysFair(terms(u).rate(s), BillOf(init, f, u, s, month, terms), SplitOf(t, a.event, month, terms).billable);
    }
  }

  lemma {:induction false} HoursOverGrows(h: seq<Attempt>, f: Fate, u: User, services: seq<Service>, month: int,
                                          terms: User -> Terms)
    requires |h| > 0 && Distinct(services)
    ensures var (t, a) := (Metered(h[..|h| - 1], month, terms), h[|h| - 1]);
      HoursOver(h, f, u, services, month, terms)
      == HoursOver(h[..|h| - 1], f, u, services, month, terms)
         + if a.event.u == u && a.event.s in services && FateOf(t, a, month, terms) == f
           then SplitOf(t, a.event, month, terms).billable else 0
  {
    if |services| > 0 {
      var init := services[..|services| - 1];
      assert services == init + [services[|services| - 1]];
      HoursOverGrows(h, f, u, init, month, terms);
    }
  }

  lemma {:induction false} NoHoursYet(f: Fate, u: User, services: seq<Service>, month: int, terms: User -> Terms)
    ensures HoursOver([], f, u, services, month, terms) == 0
  {
    if |services| > 0 { NoHoursYet(f, u, services[..|services| - 1], month, terms); }
  }

  /** A user's hours with one fate are those of the user's services. */
  lemma {:induction false} HoursByService(h: seq<Attempt>, f: Fate, u: User, services: seq<Service>, month: int,
                                          terms: User -> Terms)
    requires Distinct(services) && forall a <- h :: a.event.u == u ==> a.event.s in services
    ensures HoursBy(h, f, u, month, terms) == HoursOver(h, f, u, services, month, terms)
  {
    if |h| == 0 {
      NoHoursYet(f, u, services, month, terms);
    } else {
      assert h[|h| - 1] in h;
      HoursByService(h[..|h| - 1], f, u, services, month, terms);
      HoursOverGrows(h, f, u, services, month, terms);
    }
  }

  // ---- a container restarted after a refused stop

  lemma {:induction false} HourCosts(hour: real, half: real)
    requires hour == 3600.0 && half == 1800.0
    ensures SplitRuntime(Hours(hour), 0, 0.0) == Split(0, 1000000)
    ensures SplitRuntime(Hours(half), 0, 0.0) == Split(0, 500000)
    ensures Round(Dollars(1.0, 1000000)) == 1000000 && Round(Dollars(1.0, 500000)) == 500000
  {
    RoundWhole(1000000);
    RoundWhole(500000);
    RoundWhole(0);
  }

  /**
    Without allowance, at a dollar an hour: a stop after an hour that is refused
    also swallows the half hour after the restart. Affordable, both are posted.
   */
  lemma {:induction false} RefusedStopSwallows(u: User, s: Service, hour: real, half: real, affordable: bool,
                                               month: int, terms: User -> Terms, q: Tracker)
    requires hour == 3600.0 && half == 1800.0 && u != "" && terms(u).allowance == 0 && terms(u).rate(s) == 1.0
    requires q == Meter(EMPTY, Attempt(Stop(u, s, hour), affordable), month, terms)
    ensures Charges(EMPTY, Attempt(Stop(u, s, hour), affordable), month, terms)
            == if affordable then Charged(Split(0, 1000000), 1000000) else Refused(Split(0, 1000000), 1000000)
    ensures Charges(q, Attempt(Sample(u, s, half), true), month, terms)
            == if affordable then Charged(Split(0, 500000), 500000) else NoCharge
  {
    HourCosts(hour, half);
  }
}
