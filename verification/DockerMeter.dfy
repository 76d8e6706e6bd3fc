/**
  Billing containers by uptime: each settlement charges the uptime gained since
  the last one, first against the user's monthly allowance of free hours.

  Uptimes are in seconds; hours are counted in millionths, so that rounding to six
  decimals is rounding to a whole number.
 */
module DockerMeter {
  import opened Collections
  import opened Money

  type User = string
  type Service = string

  /** A plan's terms: allowance in millionths of an hour, and each service's rate in USD per hour. */
  datatype Terms = Terms(allowance: nat, rate: Service -> real)

  datatype Split = Split(free: int, billable: int)
  /** A refused charge is one whose debit the user could not afford. */
  datatype Charge = NoCharge | Charged(split: Split, cost: int) | Refused(split: Split, cost: int)

  datatype Tracker = Tracker(billed: map<(User, Service), real>, used: map<User, real>, period: map<User, int>)

  function Hours(seconds: real): real {
    seconds * 2500.0 / 9.0
  }

  /** Runtime split into hours within the allowance and hours to bill. */
  function SplitRuntime(hours: real, allowance: nat, used: real): Split {
    var delta := Max(0.0, hours);
    var remaining := Max(0.0, allowance as real - Max(0.0, used));
    var free := Min(delta, remaining);
    Split(Round(free), Round(Max(0.0, delta - free)))
  }

  function Billed(t: Tracker, u: User, s: Service): real {
    if (u, s) in t.billed then t.billed[(u, s)] else 0.0
  }

  /** The hours a user has consumed in a month; a new month starts from zero. */
  function Used(t: Tracker, u: User, month: int): real {
    if u in t.period && t.period[u] == month && u in t.used then t.used[u] else 0.0
  }

  /** Reading the counter in a new month resets it. */
  function TurnMonth(t: Tracker, u: User, month: int): Tracker {
    if u in t.period && t.period[u] == month then t
    else t.(used := t.used[u := 0.0], period := t.period[u := month])
  }

  function AddUsed(t: Tracker, u: User, month: int, free: int): Tracker {
    var turned := TurnMonth(t, u, month);
    turned.(used := turned.used[u := Used(turned, u, month) + Max(0.0, free as real)])
  }

  /** A settlement reads the counter, and adds to it only what was free. */
  function Consume(t: Tracker, u: User, month: int, free: int): Tracker {
    if free > 0 then AddUsed(t, u, month, free) else TurnMonth(t, u, month)
  }

  /** Seconds a settlement charges, given the uptime already billed. */
  function Gain(billed: real, uptime: real): real {
    Max(0.0, Max(0.0, uptime) - billed)
  }

  function Settle(t: Tracker, u: User, s: Service, uptime: real, final: bool, month: int, terms: Terms): Tracker {
    var gain := Gain(Billed(t, u, s), uptime);
    if u == "" then t
    else if gain > 0.0 then
      var used := Used(t, u, month);
      var free := SplitRuntime(Hours(gain), terms.allowance, used).free;
      Consume(t.(billed := t.billed[(u, s) := Max(0.0, uptime)]), u, month, free)
    else if final && Max(0.0, uptime) < Billed(t, u, s) then t.(billed := t.billed[(u, s) := Max(0.0, uptime)])
    else t
  }

  /** What hours cost at a rate, in millionths of a dollar and before rounding. */
  function Dollars(rate: real, hours: int): real {
    rate * hours as real
  }

  /** What a split costs, in millionths of a dollar; a split worth nothing is no charge. */
  function Priced(split: Split, rate: real, affordable: bool): Charge {
    var cost := Round(Dollars(rate, split.billable));
    if cost <= 0 && split.free <= 0 then NoCharge
    else if cost > 0 && !affordable then Refused(split, cost)
    else Charged(split, cost)
  }

  function ChargeFor(t: Tracker, u: User, s: Service, uptime: real, month: int, terms: Terms,
                     affordable: bool): Charge {
    var gain := Gain(Billed(t, u, s), uptime);
    if u == "" || gain <= 0.0 then NoCharge
    else Priced(SplitRuntime(Hours(gain), terms.allowance, Used(t, u, month)), terms.rate(s), affordable)
  }

  function Forget(t: Tracker, u: User, s: Service): Tracker {
    t.(billed := t.billed - {(u, s)})
  }

  // ---- runs within one month and plan

  /** What took effect: a stop here is one whose charge, if any, was posted. */
  datatype Event =
    | Sample(u: User, s: Service, uptime: real)
    | Stop(u: User, s: Service, uptime: real)
    | Drop(u: User, s: Service)

  function Step(t: Tracker, e: Event, month: int, terms: User -> Terms): Tracker {
    match e
    case Sample(u, s, uptime) => Settle(t, u, s, uptime, false, month, terms(u))
    case Stop(u, s, uptime) => Forget(Settle(t, u, s, uptime, true, month, terms(u)), u, s)
    case Drop(u, s) => Forget(t, u, s)
  }

  const EMPTY := Tracker(map[], map[], map[])

  /** An event as the tracker meets it, and whether the user could afford what it would cost. */
  datatype Attempt = Attempt(event: Event, affordable: bool)

  /** The charge an attempt makes; dropping a service charges nothing. */
  function Charges(t: Tracker, a: Attempt, month: int, terms: User -> Terms): Charge {
    var e := a.event;
    if e.Drop? then NoCharge else ChargeFor(t, e.u, e.s, e.uptime, month, terms(e.u), a.affordable)
  }

  /** A stop whose charge is refused raises before the service is forgotten. */
  function Meter(t: Tracker, a: Attempt, month: int, terms: User -> Terms): Tracker {
    match a.event
    case Sample(u, s, uptime) => Settle(t, u, s, uptime, false, month, terms(u))
    case Stop(u, s, uptime) =>
      var q := Settle(t, u, s, uptime, true, month, terms(u));
      if Charges(t, a, month, terms).Refused? then q else Forget(q, u, s)
    case Drop(u, s) => Forget(t, u, s)
  }

  function Metered(h: seq<Attempt>, month: int, terms: User -> Terms): Tracker {
    if |h| == 0 then EMPTY else Meter(Metered(h[..|h| - 1], month, terms), h[|h| - 1], month, terms)
  }

  function Run(h: seq<Event>, month: int, terms: User -> Terms): Tracker {
    if |h| == 0 then EMPTY else Step(Run(h[..|h| - 1], month, terms), h[|h| - 1], month, terms)
  }

  // ---- the reference: uptime by segments, on the history alone

  /** Uptime of a service in finished segments, and the largest sample of the open one. */
  datatype Segments = Segments(closed: real, peak: real)

  function Segment(g: Segments, e: Event, u: User, s: Service): Segments {
    if e.u != u || e.s != s then g
    else
      match e
      case Sample(_, _, uptime) => g.(peak := Max(g.peak, uptime))
      case Stop(_, _, uptime) => Segments(g.closed + Max(g.peak, uptime), 0.0)
      case Drop(_, _) => Segments(g.closed + g.peak, 0.0)
  }

  function SegmentsFrom(g: Segments, h: seq<Event>, u: User, s: Service): Segments {
    if |h| == 0 then g else Segment(SegmentsFrom(g, h[..|h| - 1], u, s), h[|h| - 1], u, s)
  }

  function SegmentsOf(h: seq<Event>, u: User, s: Service): Segments {
    SegmentsFrom(Segments(0.0, 0.0), h, u, s)
  }

  function Uptime(h: seq<Event>, u: User, s: Service): real {
    SegmentsOf(h, u, s).closed + SegmentsOf(h, u, s).peak
  }

  function UptimeOver(h: seq<Event>, u: User, services: seq<Service>): real {
    if |services| == 0 then 0.0
    else UptimeOver(h, u, services[..|services| - 1]) + Uptime(h, u, services[|services| - 1])
  }

  /** Seconds newly settled by the last event of a history. */
  function LastGain(h: seq<Event>): real
    requires |h| > 0
  {
    var e := h[|h| - 1];
    if e.Drop? then 0.0 else Gain(SegmentsOf(h[..|h| - 1], e.u, e.s).peak, e.uptime)
  }

  /** Sums over the settlements of one user: seconds, rounded hours, free and billed hours. */
  function Seconds(h: seq<Event>, u: User): real {
    if |h| == 0 then 0.0
    else Seconds(h[..|h| - 1], u) + if h[|h| - 1].u == u then LastGain(h) else 0.0
  }

  function RoundedHours(h: seq<Event>, u: User): int {
    if |h| == 0 then 0
    else RoundedHours(h[..|h| - 1], u) + if h[|h| - 1].u == u then Round(Hours(LastGain(h))) else 0
  }

  function LastSplit(h: seq<Event>, month: int, terms: User -> Terms): Split
    requires |h| > 0
  {
    var u := h[|h| - 1].u;
    SplitRuntime(Hours(LastGain(h)), terms(u).allowance, Used(Run(h[..|h| - 1], month, terms), u, month))
  }

  function FreeHours(h: seq<Event>, u: User, month: int, terms: User -> Terms): int {
    if |h| == 0 then 0
    else FreeHours(h[..|h| - 1], u, month, terms) + if h[|h| - 1].u == u then LastSplit(h, month, terms).free else 0
  }

  function BilledHours(h: seq<Event>, u: User, month: int, terms: User -> Terms): int {
    if |h| == 0 then 0
    else BilledHours(h[..|h| - 1], u, month, terms) + if h[|h| - 1].u == u
        then LastSplit(h, month, terms).billable else 0
  }

  function Settlements(h: seq<Event>, u: User): (n: nat)
    ensures n <= |h|
  {
    if |h| == 0 then 0 else Settlements(h[..|h| - 1], u) + if h[|h| - 1].u == u then 1 else 0
  }

  predicate Named(h: seq<Event>) {
    forall e <- h :: e.u != ""
  }

  // ---- splitting

  /** A split grants the allowance what is left of it, and what it grants rounds as the hours do. */
  lemma {:induction false} SplitGrants(hours: real, allowance: nat, used: int)
    requires hours >= 0.0 && 0 <= used <= allowance
    ensures var p := SplitRuntime(hours, allowance, used as real);
      && p.free >= 0 && p.billable >= 0
      && used + p.free == (if used + Round(hours) <= allowance then used + Round(hours) else allowance)
      && -0.5 <= (p.free + p.billable) as real - hours <= 0.5
      && (OnGrid(hours) ==> (p.free + p.billable) as real == hours)
  {
    var remaining := allowance - used;
    RoundWhole(remaining);
    RoundWhole(0);
    RoundMonotone(0.0, hours);
    if hours <= remaining as real {
      RoundMonotone(hours, remaining as real);
    } else {
      RoundMonotone(remaining as real, hours);
      if OnGrid(hours) { GridSum(hours, remaining as real); RoundGrid(hours - remaining as real); }
    }
    if OnGrid(hours) { RoundGrid(hours); }
  }

  /** Nobody is charged for nothing: no user, no gain, or a split that is worth nothing either way. */
  lemma {:induction false} NoChargeIff(t: Tracker, u: User, s: Service, uptime: real, month: int, terms: Terms,
                                       affordable: bool, split: Split, cost: int)
    requires split == SplitRuntime(Hours(Gain(Billed(t, u, s), uptime)), terms.allowance, Used(t, u, month))
    requires cost == Round(Dollars(terms.rate(s), split.billable))
    ensures var c := ChargeFor(t, u, s, uptime, month, terms, affordable);
      && (c == NoCharge <==> u == "" || Max(0.0, uptime) <= Billed(t, u, s) || (cost <= 0 && split.free <= 0))
      && (c.Refused? ==> c == Refused(split, cost) && cost > 0 && !affordable)
      && (c.Charged? ==> c == Charged(split, cost) && (cost > 0 ==> affordable))
    ensures u == "" ==> forall final :: Settle(t, u, s, uptime, final, month, terms) == t
  {
  }

  // ---- the tracker follows the segments

  lemma {:induction false} PeakNonNegative(h: seq<Event>, u: User, s: Service)
    ensures SegmentsOf(h, u, s).peak >= 0.0
  {
    if |h| > 0 { PeakNonNegative(h[..|h| - 1], u, s); }
  }

  lemma {:induction false} SettleBills(t: Tracker, u: User, s: Service, uptime: real, final: bool, month: int,
                                       terms: Terms, v: User, r: Service)
    requires u != ""
    ensures var q := Settle(t, u, s, uptime, final, month, terms);
      Billed(q, v, r) == if v != u || r != s then Billed(t, v, r)
                         else if final then Max(0.0, uptime) else Max(Billed(t, v, r), Max(0.0, uptime))
  {
  }

  /** Per service, the uptime billed since the last stop is the largest uptime sampled. */
  lemma {:induction false} BilledIsPeak(h: seq<Event>, month: int, terms: User -> Terms, u: User, s: Service)
    requires Named(h)
    ensures Billed(Run(h, month, terms), u, s) == SegmentsOf(h, u, s).peak
  {
    if |h| > 0 {
      var before := h[..|h| - 1];
      var e := h[|h| - 1];
      assert e in h && Named(before);
      BilledIsPeak(before, month, terms, u, s);
      PeakNonNegative(before, u, s);
      if !e.Drop? { SettleBills(Run(before, month, terms), e.u, e.s, e.uptime, e.Stop?, month, terms(e.u), u, s); }
    }
  }

  lemma {:induction false} NoGainNoSplit(allowance: nat, used: real)
    ensures SplitRuntime(Hours(0.0), allowance, used) == Split(0, 0)
  {
    RoundWhole(0);
  }

  /** A settlement raises its user's counter by the free part of the split of the time gained. */
  lemma {:induction false} SettleUses(t: Tracker, u: User, s: Service, uptime: real, final: bool, month: int,
                                      terms: Terms)
    requires u != ""
    ensures var free := SplitRuntime(Hours(Gain(Billed(t, u, s), uptime)), terms.allowance, Used(t, u, month)).free;
      Used(Settle(t, u, s, uptime, final, month, terms), u, month) == Used(t, u, month) + free as real
  {
    NoGainNoSplit(terms.allowance, Used(t, u, month));
    var hours := Hours(Gain(Billed(t, u, s), uptime));
    var remaining := Max(0.0, terms.allowance as real - Max(0.0, Used(t, u, month)));
    RoundMonotone(0.0, Min(hours, remaining));
  }

  lemma {:induction false} OthersUse(t: Tracker, e: Event, month: int, terms: User -> Terms, u: User)
    requires e.u != u
    ensures Used(Step(t, e, month, terms), u, month) == Used(t, u, month)
  {
  }

  /**
    For every history: hours granted free are the allowance or all the hours
    settled, each rounded, whichever is less; the tracker's counter agrees.
   */
  lemma {:induction false} FreeIsAllowanceOrAll(h: seq<Event>, month: int, terms: User -> Terms, u: User)
    requires Named(h)
    ensures RoundedHours(h, u) >= 0
    ensures FreeHours(h, u, month, terms) ==
        if RoundedHours(h, u) <= terms(u).allowance then RoundedHours(h, u) else terms(u).allowance
    ensures Used(Run(h, month, terms), u, month) == FreeHours(h, u, month, terms) as real
  {
    if |h| > 0 {
      var before := h[..|h| - 1];
      var e := h[|h| - 1];
      assert e in h && Named(before);
      FreeIsAllowanceOrAll(before, month, terms, u);
      if e.u == u {
        LastEventGrants(h, month, terms);
      } else {
        OthersUse(Run(before, month, terms), e, month, terms, u);
      }
    }
  }

  lemma {:induction false} LastEventGrants(h: seq<Event>, month: int, terms: User -> Terms)
    requires Named(h) && |h| > 0
    requires var u := h[|h| - 1].u;
      var before := h[..|h| - 1];
      && Used(Run(before, month, terms), u, month) == FreeHours(before, u, month, terms) as real
      && 0 <= FreeHours(before, u, month, terms) <= terms(u).allowance
    ensures var u := h[|h| - 1].u;
      var free := LastSplit(h, month, terms).free;
      var counted := FreeHours(h[..|h| - 1], u, month, terms) + Round(Hours(LastGain(h)));
      && free >= 0 && Round(Hours(LastGain(h))) >= 0
      && FreeHours(h, u, month, terms) == (if counted <= terms(u).allowance then counted else terms(u).allowance)
      && Used(Run(h, month, terms), u, month) == FreeHours(h, u, month, terms) as real
  {
    var e := h[|h| - 1];
    var before := h[..|h| - 1];
    assert e in h && Named(before);
    SplitGrants(Hours(LastGain(h)), terms(e.u).allowance, FreeHours(before, e.u, month, terms));
    RoundMonotone(0.0, Hours(LastGain(h)));
    RoundWhole(0);
    RoundWhole(LastSplit(h, month, terms).free);
    BilledIsPeak(before, month, terms, e.u, e.s);
    if !e.Drop? { SettleUses(Run(before, month, terms), e.u, e.s, e.uptime, e.Stop?, month, terms(e.u)); }
    NoGainNoSplit(terms(e.u).allowance, Used(Run(before, month, terms), e.u, month));
  }

  /** The splits summed here are the ones charged. */
  lemma {:induction false} ChargesAreSplits(h: seq<Event>, month: int, terms: User -> Terms, affordable: bool)
    requires Named(h) && |h| > 0 && !h[|h| - 1].Drop?
    ensures var e := h[|h| - 1];
      ChargeFor(Run(h[..|h| - 1], month, terms), e.u, e.s, e.uptime, month, terms(e.u), affordable)
      == if LastGain(h) > 0.0
         then Priced(LastSplit(h, month, terms), terms(e.u).rate(e.s), affordable) else NoCharge
  {
    var e := h[|h| - 1];
    assert e in h && Named(h[..|h| - 1]);
    BilledIsPeak(h[..|h| - 1], month, terms, e.u, e.s);
  }

  // ---- independence of tick granularity

  /** Every settlement charged whole hours, or none: no rounding is lost. */
  predicate ExactHours(h: seq<Event>, u: User) {
    |h| == 0 || (ExactHours(h[..|h| - 1], u) && (h[|h| - 1].u == u ==> OnGrid(Hours(LastGain(h)))))
  }

  /** Free and billed hours account for all the time settled, up to half a millionth per settlement. */
  lemma {:induction false} HoursAccountedFor(h: seq<Event>, month: int, terms: User -> Terms, u: User)
    requires Named(h)
    ensures var drift := (FreeHours(h, u, month, terms) + BilledHours(h, u, month, terms)) as real
        - Hours(Seconds(h, u));
      && -(Settlements(h, u) as real) <= 2.0 * drift <= Settlements(h, u) as real
      && (ExactHours(h, u) ==> drift == 0.0 && RoundedHours(h, u) as real == Hours(Seconds(h, u)))
  {
    if |h| > 0 {
      var before := h[..|h| - 1];
      assert Named(before);
      HoursAccountedFor(before, month, terms, u);
      if h[|h| - 1].u == u {
        FreeIsAllowanceOrAll(before, month, terms, u);
        SplitGrants(Hours(LastGain(h)), terms(u).allowance, FreeHours(before, u, month, terms));
        if OnGrid(Hours(LastGain(h))) { RoundGrid(Hours(LastGain(h))); }
      }
    }
  }

  lemma {:induction false} UptimeGrows(h: seq<Event>, u: User, s: Service)
    requires |h| > 0
    ensures var e := h[|h| - 1];
      Uptime(h, u, s) == Uptime(h[..|h| - 1], u, s) + if e.u == u && e.s == s then LastGain(h) else 0.0
  {
    PeakNonNegative(h[..|h| - 1], u, s);
  }

  lemma {:induction false} UptimeOverGrows(h: seq<Event>, u: User, services: seq<Service>)
    requires |h| > 0 && Distinct(services)
    ensures var e := h[|h| - 1];
      UptimeOver(h, u, services) ==
      UptimeOver(h[..|h| - 1], u, services) + if e.u == u && e.s in services then LastGain(h) else 0.0
  {
    if |services| > 0 {
      var init := services[..|services| - 1];
      assert services == init + [services[|services| - 1]];
      UptimeOverGrows(h, u, init);
      UptimeGrows(h, u, services[|services| - 1]);
    }
  }

  lemma {:induction false} NoUptimeYet(u: User, services: seq<Service>)
    ensures UptimeOver([], u, services) == 0.0
  {
    if |services| > 0 { NoUptimeYet(u, services[..|services| - 1]); }
  }

  /** The time settled for a user is the uptime of the user's services, segment by segment. */
  lemma {:induction false} SecondsAreUptime(h: seq<Event>, u: User, services: seq<Service>)
    requires Distinct(services) && forall e <- h :: e.u == u ==> e.s in services
    ensures Seconds(h, u) == UptimeOver(h, u, services)
  {
    if |h| == 0 {
      NoUptimeYet(u, services);
    } else {
      assert h[|h| - 1] in h;
      SecondsAreUptime(h[..|h| - 1], u, services);
      UptimeOverGrows(h, u, services);
    }
  }

  /**
    The closed form: with exact hours, the hours granted free are the lesser of the
    allowance and the total uptime of the user's services, and the rest is billed,
    however the uptime was cut into ticks.
   */
  lemma {:induction false} ClosedForm(h: seq<Event>, month: int, terms: User -> Terms, u: User, services: seq<Service>)
    requires Named(h) && ExactHours(h, u)
    requires Distinct(services) && forall e <- h :: e.u == u ==> e.s in services
    ensures var total := Hours(UptimeOver(h, u, services));
      var free := Min(total, terms(u).allowance as real);
      && FreeHours(h, u, month, terms) as real == free
      && BilledHours(h, u, month, terms) as real == total - free
  {
    HoursAccountedFor(h, month, terms, u);
    FreeIsAllowanceOrAll(h, month, terms, u);
    SecondsAreUptime(h, u, services);
  }

  lemma {:induction false} SegmentsChain(g: Segments, h: seq<Event>, more: seq<Event>, u: User, s: Service)
    ensures SegmentsFrom(g, h + more, u, s) == SegmentsFrom(SegmentsFrom(g, h, u, s), more, u, s)
  {
    if |more| == 0 {
      assert h + more == h;
    } else {
      assert (h + more)[..|h + more| - 1] == h + more[..|more| - 1];
      SegmentsChain(g, h, more[..|more| - 1], u, s);
    }
  }

  /** Between a sample and a larger one of the same segment, the smaller leaves no trace. */
  lemma {:induction false} SmallerSampleAbsorbed(g: Segments, x: real, mid: seq<Event>, u: User, s: Service)
    requires forall e <- mid :: e.u == u && e.s == s ==> e.Sample?
    ensures var with := SegmentsFrom(g.(peak := Max(g.peak, x)), mid, u, s);
      var without := SegmentsFrom(g, mid, u, s);
      with.closed == without.closed && with.peak == Max(without.peak, x)
  {
    if |mid| > 0 {
      assert mid[|mid| - 1] in mid;
      SmallerSampleAbsorbed(g, x, mid[..|mid| - 1], u, s);
    }
  }

  /** A sample, and a later one of the same segment that reaches or passes it, with other events in between. */
  predicate Ticks(u: User, s: Service, x: real, mid: seq<Event>, y: real) {
    x <= y && forall e <- mid :: e.u == u && e.s == s ==> e.Sample?
  }

  function WithTick(h: seq<Event>, u: User, s: Service, x: real, mid: seq<Event>, y: real): seq<Event> {
    h + [Sample(u, s, x)] + mid + [Sample(u, s, y)]
  }

  function WithoutTick(h: seq<Event>, u: User, s: Service, mid: seq<Event>, y: real): seq<Event> {
    h + mid + [Sample(u, s, y)]
  }

  lemma {:induction false} SegmentsOfWithout(h: seq<Event>, u: User, s: Service, mid: seq<Event>, y: real, v: User,
                                             r: Service)
    ensures SegmentsOf(WithoutTick(h, u, s, mid, y), v, r)
            == Segment(SegmentsFrom(SegmentsOf(h, v, r), mid, v, r), Sample(u, s, y), v, r)
  {
    var zero := Segments(0.0, 0.0);
    SegmentsChain(zero, h, mid, v, r);
    SegmentsChain(zero, h + mid, [Sample(u, s, y)], v, r);
    OneEvent(SegmentsFrom(zero, h + mid, v, r), Sample(u, s, y), v, r);
  }

  lemma {:induction false} SegmentsOfWith(h: seq<Event>, u: User, s: Service, x: real, mid: seq<Event>, y: real,
                                          v: User, r: Service)
    ensures SegmentsOf(WithTick(h, u, s, x, mid, y), v, r)
            == Segment(SegmentsFrom(Segment(SegmentsOf(h, v, r), Sample(u, s, x), v, r), mid, v, r),
                       Sample(u, s, y), v, r)
  {
    SegmentsChain(Segments(0.0, 0.0), h, [Sample(u, s, x)], v, r);
    OneEvent(SegmentsOf(h, v, r), Sample(u, s, x), v, r);
    SegmentsOfWithout(h + [Sample(u, s, x)], u, s, mid, y, v, r);
  }

  lemma {:induction false} TickSegments(h: seq<Event>, u: User, s: Service, x: real, mid: seq<Event>, y: real,
                                        v: User, r: Service)
    requires Ticks(u, s, x, mid, y)
    ensures SegmentsOf(WithTick(h, u, s, x, mid, y), v, r) == SegmentsOf(WithoutTick(h, u, s, mid, y), v, r)
  {
    SegmentsOfWith(h, u, s, x, mid, y, v, r);
    SegmentsOfWithout(h, u, s, mid, y, v, r);
    if v == u && r == s { SmallerSampleAbsorbed(SegmentsOf(h, v, r), x, mid, u, s); }
  }

  /** Leaving out a sample that a later one of the same segment reaches or passes changes no uptime. */
  lemma {:induction false} TickUptime(h: seq<Event>, u: User, s: Service, x: real, mid: seq<Event>, y: real,
                                      rest: seq<Event>,
                                      v: User, r: Service)
    requires Ticks(u, s, x, mid, y)
    ensures Uptime(WithTick(h, u, s, x, mid, y) + rest, v, r) == Uptime(WithoutTick(h, u, s, mid, y) + rest, v, r)
  {
    TickSegments(h, u, s, x, mid, y, v, r);
    SegmentsChain(Segments(0.0, 0.0), WithTick(h, u, s, x, mid, y), rest, v, r);
    SegmentsChain(Segments(0.0, 0.0), WithoutTick(h, u, s, mid, y), rest, v, r);
  }

  lemma {:induction false} ServicesOf(h: seq<Event>) returns (services: seq<Service>)
    ensures Distinct(services) && forall e <- h :: e.s in services
  {
    services := [];
    if |h| > 0 {
      services := ServicesOf(h[..|h| - 1]);
      var last := h[|h| - 1];
      assert h == h[..|h| - 1] + [last];
      if last.s !in services { services := services + [last.s]; }
    }
  }

  lemma {:induction false} TickUptimeOver(h: seq<Event>, u: User, s: Service, x: real, mid: seq<Event>, y: real,
                                          rest: seq<Event>,
                                          v: User, services: seq<Service>)
    requires Ticks(u, s, x, mid, y)
    ensures UptimeOver(WithTick(h, u, s, x, mid, y) + rest, v, services)
            == UptimeOver(WithoutTick(h, u, s, mid, y) + rest, v, services)
  {
    if |services| > 0 {
      TickUptimeOver(h, u, s, x, mid, y, rest, v, services[..|services| - 1]);
      TickUptime(h, u, s, x, mid, y, rest, v, services[|services| - 1]);
    }
  }

  lemma {:induction false} TickEvents(h: seq<Event>, u: User, s: Service, x: real, mid: seq<Event>, y: real,
                                      rest: seq<Event>)
    ensures forall e <- WithoutTick(h, u, s, mid, y) + rest :: e in WithTick(h, u, s, x, mid, y) + rest
  {
    forall e <- WithoutTick(h, u, s, mid, y) + rest ensures e in WithTick(h, u, s, x, mid, y) + rest {
      assert e in h || e in mid || e == Sample(u, s, y) || e in rest;
    }
  }

  lemma {:induction false} TickSeconds(h: seq<Event>, u: User, s: Service, x: real, mid: seq<Event>, y: real,
                                       rest: seq<Event>, v: User)
    requires Ticks(u, s, x, mid, y)
    ensures Seconds(WithTick(h, u, s, x, mid, y) + rest, v) == Seconds(WithoutTick(h, u, s, mid, y) + rest, v)
  {
    var services := ServicesOf(WithTick(h, u, s, x, mid, y) + rest);
    TickEvents(h, u, s, x, mid, y, rest);
    SecondsAreUptime(WithTick(h, u, s, x, mid, y) + rest, v, services);
    SecondsAreUptime(WithoutTick(h, u, s, mid, y) + rest, v, services);
    TickUptimeOver(h, u, s, x, mid, y, rest, v, services);
  }

  /**
    A tick more or less makes no difference to anyone's hours, free or billed, while
    hours are exact either way.
   */
  lemma {:induction false} TickMakesNoDifference(h: seq<Event>, u: User, s: Service, x: real, mid: seq<Event>, y: real,
                                                 rest: seq<Event>, month: int, terms: User -> Terms, v: User)
    requires Ticks(u, s, x, mid, y) && Named(WithTick(h, u, s, x, mid, y) + rest)
    requires ExactHours(WithTick(h, u, s, x, mid, y) + rest, v) && ExactHours(WithoutTick(h, u, s, mid, y) + rest, v)
    ensures FreeHours(WithTick(h, u, s, x, mid, y) + rest, v, month, terms)
            == FreeHours(WithoutTick(h, u, s, mid, y) + rest, v, month, terms)
    ensures BilledHours(WithTick(h, u, s, x, mid, y) + rest, v, month, terms)
            == BilledHours(WithoutTick(h, u, s, mid, y) + rest, v, month, terms)
  {
    var (long, short) := (WithTick(h, u, s, x, mid, y) + rest, WithoutTick(h, u, s, mid, y) + rest);
    TickEvents(h, u, s, x, mid, y, rest);
    TickSeconds(h, u, s, x, mid, y, rest, v);
    HoursAccountedFor(long, month, terms, v);
    HoursAccountedFor(short, month, terms, v);
    FreeIsAllowanceOrAll(long, month, terms, v);
    FreeIsAllowanceOrAll(short, month, terms, v);
  }

  // ---- when leaving a tick out keeps hours exact

  lemma {:induction false} ExactPrefix(h: seq<Event>, more: seq<Event>, v: User)
    requires ExactHours(h + more, v)
    ensures ExactHours(h, v)
  {
    if |more| == 0 {
      assert h + more == h;
    } else {
      assert (h + more)[..|h + more| - 1] == h + more[..|more| - 1];
      ExactPrefix(h, more[..|more| - 1], v);
    }
  }

  lemma {:induction false} LastExact(h: seq<Event>, e: Event, v: User)
    ensures ExactHours(h + [e], v) <==> ExactHours(h, v) && (e.u == v ==> OnGrid(Hours(LastGain(h + [e]))))
  {
    assert (h + [e])[..|h|] == h;
  }

  lemma {:induction false} GainAlike(p: seq<Event>, q: seq<Event>, e: Event)
    requires SegmentsOf(p, e.u, e.s) == SegmentsOf(q, e.u, e.s)
    ensures LastGain(p + [e]) == LastGain(q + [e])
  {
    assert (p + [e])[..|p|] == p && (q + [e])[..|q|] == q;
  }

  /** Histories that agree on the services of further events stay exact alike. */
  lemma {:induction false} ExactAlike(p: seq<Event>, q: seq<Event>, more: seq<Event>, v: User)
    requires forall e <- more :: SegmentsOf(p, e.u, e.s) == SegmentsOf(q, e.u, e.s)
    requires ExactHours(p + more, v) && ExactHours(q, v)
    ensures ExactHours(q + more, v)
  {
    if |more| == 0 {
      assert q + more == q;
    } else {
      var init := more[..|more| - 1];
      var e := more[|more| - 1];
      assert more == init + [e];
      assert p + more == (p + init) + [e] && q + more == (q + init) + [e];
      SegmentsChain(Segments(0.0, 0.0), p, init, e.u, e.s);
      SegmentsChain(Segments(0.0, 0.0), q, init, e.u, e.s);
      LastExact(p + init, e, v);
      ExactAlike(p, q, init, v);
      GainAlike(p + init, q + init, e);
      LastExact(q + init, e, v);
    }
  }

  /** With nothing of the service in between, the time up to the later sample is charged at once, or in two parts. */
  lemma {:induction false} TickGains(h: seq<Event>, u: User, s: Service, x: real, mid: seq<Event>, y: real)
    requires x <= y && forall e <- mid :: e.u != u || e.s != s
    ensures LastGain(WithoutTick(h, u, s, mid, y))
        == LastGain(h + [Sample(u, s, x)]) + LastGain(WithTick(h, u, s, x, mid, y))
  {
    var zero := Segments(0.0, 0.0);
    var tick := [Sample(u, s, x)];
    assert (h + tick)[..|h|] == h;
    assert WithoutTick(h, u, s, mid, y)[..|h + mid|] == h + mid;
    assert WithTick(h, u, s, x, mid, y)[..|h + tick + mid|] == h + tick + mid;
    SegmentsChain(zero, h, tick, u, s);
    SegmentsChain(zero, h + tick, mid, u, s);
    SegmentsChain(zero, h, mid, u, s);
    OneEvent(SegmentsFrom(zero, h, u, s), tick[0], u, s);
    Untouched(SegmentsOf(h, u, s), mid, u, s);
    Untouched(SegmentsOf(h + tick, u, s), mid, u, s);
    PeakNonNegative(h, u, s);
  }

  lemma {:induction false} Untouched(g: Segments, mid: seq<Event>, u: User, s: Service)
    requires forall e <- mid :: e.u != u || e.s != s
    ensures SegmentsFrom(g, mid, u, s) == g
  {
    if |mid| > 0 {
      assert mid[|mid| - 1] in mid;
      Untouched(g, mid[..|mid| - 1], u, s);
    }
  }

  /** Then hours that are exact with the tick are exact without it. */
  lemma {:induction false} TickLeftOutExact(h: seq<Event>, u: User, s: Service, x: real, mid: seq<Event>, y: real,
                                            rest: seq<Event>, v: User)
    requires x <= y && (forall e <- mid :: e.u != u || e.s != s)
    requires ExactHours(WithTick(h, u, s, x, mid, y) + rest, v)
    ensures ExactHours(WithoutTick(h, u, s, mid, y) + rest, v)
  {
    var tick, last := Sample(u, s, x), Sample(u, s, y);
    ExactPrefix(WithTick(h, u, s, x, mid, y), rest, v);
    LastExact(h + [tick] + mid, last, v);
    ExactPrefix(h + [tick], mid, v);
    LastExact(h, tick, v);
    forall e <- mid ensures SegmentsOf(h + [tick], e.u, e.s) == SegmentsOf(h, e.u, e.s) {
      SegmentsChain(Segments(0.0, 0.0), h, [tick], e.u, e.s);
      OneEvent(SegmentsOf(h, e.u, e.s), tick, e.u, e.s);
    }
    ExactAlike(h + [tick], h, mid, v);
    if v == u {
      TickGains(h, u, s, x, mid, y);
      GridSum(Hours(LastGain(h + [tick])), Hours(LastGain(WithTick(h, u, s, x, mid, y))));
    }
    LastExact(h + mid, last, v);
    forall e <- rest
      ensures SegmentsOf(WithTick(h, u, s, x, mid, y), e.u, e.s) == SegmentsOf(WithoutTick(h, u, s, mid, y), e.u, e.s)
    {
      TickSegments(h, u, s, x, mid, y, e.u, e.s);
    }
    ExactAlike(WithTick(h, u, s, x, mid, y), WithoutTick(h, u, s, mid, y), rest, v);
  }

  /** One more sample, on the peak of its segment, the rounded hours and exactness. */
  lemma {:induction false} Sampled(h: seq<Event>, u: User, s: Service, x: real, g: seq<Event>, peak: real, total: int)
    requires g == h + [Sample(u, s, x)] && SegmentsOf(h, u, s).peak == peak && RoundedHours(h, u) == total
    ensures SegmentsOf(g, u, s).peak == Max(peak, x)
    ensures RoundedHours(g, u) == total + Round(Hours(Gain(peak, x)))
    ensures ExactHours(g, u) <==> ExactHours(h, u) && OnGrid(Hours(Gain(peak, x)))
  {
    assert g[..|h|] == h;
  }

  lemma {:induction false} TwoSamples(u: User, s: Service, x: real, y: real, h: seq<Event>)
    requires h == [Sample(u, s, x)] + [Sample(u, s, y)]
    ensures SegmentsOf(h, u, s).peak == Max(Max(0.0, x), y)
    ensures RoundedHours(h, u) == Round(Hours(Gain(0.0, x))) + Round(Hours(Gain(Max(0.0, x), y)))
    ensures ExactHours(h, u) <==> OnGrid(Hours(Gain(0.0, x))) && OnGrid(Hours(Gain(Max(0.0, x), y)))
  {
    var h1 := [Sample(u, s, x)];
    assert h1 == [] + [Sample(u, s, x)];
    Sampled([], u, s, x, h1, 0.0, 0);
    Sampled(h1, u, s, y, h, Max(0.0, x), Round(Hours(Gain(0.0, x))));
  }

  lemma {:induction false} HalfHours(half: real, whole: real)
    requires half == 4.5018 && whole == 9.0036
    ensures Round(Hours(0.0)) == 0 && OnGrid(Hours(0.0))
    ensures Round(Hours(half)) == 1250 && Round(Hours(whole - half)) == 1250
    ensures Round(Hours(whole)) == 2501 && OnGrid(Hours(whole))
  {
    RoundIsUnique(Hours(half), 1250);
    RoundWhole(2501);
    RoundWhole(0);
  }

  /**
    With a smaller sample in between a tick can matter: 9.0036 seconds charged at
    once are 2501 millionths of an hour, charged in two halves they are 2500.
   */
  lemma {:induction false} SmallerSampleCosts(u: User, s: Service, half: real, whole: real, month: int,
                                              terms: User -> Terms,
                                              long: seq<Event>, short: seq<Event>)
    requires half == 4.5018 && whole == 9.0036 && u != "" && terms(u).allowance >= 2501
    requires long == WithTick([], u, s, whole, [Sample(u, s, half)], whole)
    requires short == WithoutTick([], u, s, [Sample(u, s, half)], whole)
    ensures ExactHours(long, u) && FreeHours(long, u, month, terms) == 2501 && FreeHours(short, u, month, terms) == 2500
  {
    HalfHours(half, whole);
    assert short == [Sample(u, s, half)] + [Sample(u, s, whole)];
    TwoSamples(u, s, half, whole, short);
    var first := [Sample(u, s, whole)] + [Sample(u, s, half)];
    assert long == first + [Sample(u, s, whole)];
    TwoSamples(u, s, whole, half, first);
    Sampled(first, u, s, whole, long, whole, 2501);
    FreeIsAllowanceOrAll(long, month, terms, u);
    FreeIsAllowanceOrAll(short, month, terms, u);
  }

  /**
    A tick between two successive samples of a service makes no difference to
    anyone's free or billed hours whenever hours are exact with it.
   */
  lemma {:induction false} TickBetweenSamples(h: seq<Event>, u: User, s: Service, x: real, mid: seq<Event>, y: real,
                                              rest: seq<Event>, month: int, terms: User -> Terms, v: User)
    requires x <= y && (forall e <- mid :: e.u != u || e.s != s)
    requires Named(WithTick(h, u, s, x, mid, y) + rest) && ExactHours(WithTick(h, u, s, x, mid, y) + rest, v)
    ensures FreeHours(WithTick(h, u, s, x, mid, y) + rest, v, month, terms)
            == FreeHours(WithoutTick(h, u, s, mid, y) + rest, v, month, terms)
    ensures BilledHours(WithTick(h, u, s, x, mid, y) + rest, v, month, terms)
            == BilledHours(WithoutTick(h, u, s, mid, y) + rest, v, month, terms)
  {
    TickLeftOutExact(h, u, s, x, mid, y, rest, v);
    TickMakesNoDifference(h, u, s, x, mid, y, rest, month, terms, v);
  }

  lemma {:induction false} OneEvent(g: Segments, e: Event, u: User, s: Service)
    ensures SegmentsFrom(g, [e], u, s) == Segment(g, e, u, s)
  {
    assert [e][..0] == [];
    assert SegmentsFrom(g, [], u, s) == g;
  }

  /**
    After a refused charge nothing up to its uptime is charged any more, only what
    a later uptime adds to it; the tracker is the one of a posted charge.
   */
  lemma {:induction false} RefusedIsForgotten(t: Tracker, a: Attempt, month: int, terms: User -> Terms, later: real)
    requires Charges(t, a, month, terms).Refused?
    ensures var (e, q) := (a.event, Meter(t, a, month, terms));
      && q == Settle(t, e.u, e.s, e.uptime, false, month, terms(e.u))
      && Max(0.0, e.uptime) > Billed(t, e.u, e.s) && Billed(q, e.u, e.s) == Max(0.0, e.uptime)
      && Gain(Billed(q, e.u, e.s), later) == Max(0.0, Max(0.0, later) - Max(0.0, e.uptime))
      && (later <= e.uptime ==>
            Charges(q, Attempt(e.(uptime := later), true), month, terms) == NoCharge)
  {
    var e := a.event;
    SettleBills(t, e.u, e.s, e.uptime, false, month, terms(e.u), e.u, e.s);
  }

  /** A settlement that gains marks the uptime and then charges the hours gained. */
  lemma {:induction false} GainSettles(t: Tracker, marked: Tracker, u: User, s: Service, uptime: real, final: bool,
                                       month: int, terms: Terms, affordable: bool)
    requires u != "" && Gain(Billed(t, u, s), uptime) > 0.0
    requires marked == t.(billed := t.billed[(u, s) := Max(0.0, uptime)])
    ensures var split := SplitRuntime(Hours(Gain(Billed(t, u, s), uptime)), terms.allowance, Used(marked, u, month));
      && Settle(t, u, s, uptime, final, month, terms) == Consume(marked, u, month, split.free)
      && ChargeFor(t, u, s, uptime, month, terms, affordable) == Priced(split, terms.rate(s), affordable)
  {
  }

  // ---- the tracker, updated in place

  class DockerBillingTracker {
    var billedUptime: map<(User, Service), real>
    var owners: map<Service, User>
    var includedUsed: map<User, real>
    var includedPeriod: map<User, int>

    ghost function Contents(): Tracker
      reads this
    {
      Tracker(billedUptime, includedUsed, includedPeriod)
    }

    /** Who pays: the user named, else the recorded owner, else whoever is asking. */
    function Payer(s: Service, user: User, asking: User): (payer: User)
      reads this
      ensures user != "" ==> payer == user
      ensures user == "" && s in owners && owners[s] != "" ==> payer == owners[s]
      ensures user == "" && (s !in owners || owners[s] == "") ==> payer == asking
    {
      if user != "" then user else if s in owners && owners[s] != "" then owners[s] else asking
    }

    constructor ()
      ensures Contents() == EMPTY && owners == map[]
    {
      billedUptime, owners, includedUsed, includedPeriod := map[], map[], map[], map[];
    }

    method AssignOwner(s: Service, user: User)
      modifies this`owners
      ensures owners == old(owners)[s := user]
    {
      owners := owners[s := user];
    }

    method IncludedUsed(u: User, month: int) returns (hours: real)
      modifies this`includedUsed, this`includedPeriod
      ensures hours == Used(old(Contents()), u, month)
      ensures Contents() == TurnMonth(old(Contents()), u, month)
    {
      if u !in includedPeriod || includedPeriod[u] != month {
        includedPeriod := includedPeriod[u := month];
        includedUsed := includedUsed[u := 0.0];
      }
      hours := if u in includedUsed then includedUsed[u] else 0.0;
    }

    method AddIncludedUsed(u: User, month: int, free: int) returns (total: real)
      modifies this`includedUsed, this`includedPeriod
      ensures Contents() == AddUsed(old(Contents()), u, month, free)
      ensures total == Used(Contents(), u, month) == Used(old(Contents()), u, month) + Max(0.0, free as real)
    {
      var used := IncludedUsed(u, month);
      total := used + Max(0.0, free as real);
      includedUsed := includedUsed[u := total];
    }

    method ChargeHours(hours: real, u: User, s: Service, month: int, terms: Terms, affordable: bool)
      returns (charge: Charge)
      modifies this`includedUsed, this`includedPeriod
      ensures var split := SplitRuntime(hours, terms.allowance, Used(old(Contents()), u, month));
        && Contents() == Consume(old(Contents()), u, month, split.free)
        && charge == Priced(split, terms.rate(s), affordable)
    {
      var before := IncludedUsed(u, month);
      var split := SplitRuntime(hours, terms.allowance, before);
      if split.free > 0 {
        var _ := AddIncludedUsed(u, month, split.free);
      }
      charge := Priced(split, terms.rate(s), affordable);
    }

    /** The uptime is marked as billed before the debit is attempted; a refused debit does not unmark it. */
    method SettleFor(s: Service, uptime: real, u: User, final: bool, month: int, terms: Terms, affordable: bool)
      returns (charge: Charge)
      requires u != ""
      modifies this`billedUptime, this`includedUsed, this`includedPeriod
      ensures charge == ChargeFor(old(Contents()), u, s, uptime, month, terms, affordable)
      ensures Contents() == Settle(old(Contents()), u, s, uptime, final, month, terms)
    {
      var prev := if (u, s) in billedUptime then billedUptime[(u, s)] else 0.0;
      var current := Max(0.0, uptime);
      if current <= prev && !final {
        return NoCharge;
      }
      var gain := Max(0.0, current - prev);
      if final && current < prev {
        billedUptime := billedUptime[(u, s) := current];
        return NoCharge;
      }
      if gain <= 0.0 {
        return NoCharge;
      }
      ghost var before := Contents();
      billedUptime := billedUptime[(u, s) := current];
      GainSettles(before, Contents(), u, s, uptime, final, month, terms, affordable);
      charge := ChargeHours(Hours(gain), u, s, month, terms, affordable);
    }

    /** Finds who pays, and settles for them if anyone is to be charged. */
    method SettleService(s: Service, uptime: real, user: User, asking: User, enabled: bool, final: bool, month: int,
                         terms: User -> Terms, affordable: bool) returns (charge: Charge)
      modifies this`billedUptime, this`includedUsed, this`includedPeriod
      ensures var u := old(Payer(s, user, asking));
        if user == "" && !enabled then charge == NoCharge && Contents() == old(Contents())
        else
          && charge == ChargeFor(old(Contents()), u, s, uptime, month, terms(u), affordable)
          && Contents() == Settle(old(Contents()), u, s, uptime, final, month, terms(u))
    {
      var u := if user != "" then user else if s in owners && owners[s] != "" then owners[s] else asking;
      if u == "" {
        return NoCharge;
      }
      if !enabled && user == "" {
        return NoCharge;
      }
      charge := SettleFor(s, uptime, u, final, month, terms(u), affordable);
    }

    /**
      The final settlement of a priced service, after which it starts from zero
      again. A refused charge raises before the service is forgotten.
     */
    method OnStop(s: Service, priced: bool, uptime: real, user: User, asking: User, enabled: bool, month: int,
                  terms: User -> Terms, affordable: bool) returns (charge: Charge)
      modifies this
      ensures !priced ==> charge == NoCharge && Contents() == old(Contents()) && owners == old(owners)
      ensures priced ==>
        var u := old(Payer(s, user, asking));
        var stop := if u != "" || enabled then Attempt(Stop(u, s, uptime), affordable)
            else Attempt(Drop(u, s), affordable);
        && charge == Charges(old(Contents()), stop, month, terms)
        && Contents() == Meter(old(Contents()), stop, month, terms)
        && owners == if charge.Refused? && user != "" then old(owners) else old(owners) - {s}
    {
      if !priced {
        return NoCharge;
      }
      var u := user;
      if user == "" {
        u := if s in owners && owners[s] != "" then owners[s] else asking;
        owners := owners - {s};
      }
      charge := SettleService(s, uptime, u, asking, enabled, true, month, terms, affordable);
      if charge.Refused? {
        return;
      }
      billedUptime := billedUptime - {(u, s)};
      owners := owners - {s};
    }
  }
}
