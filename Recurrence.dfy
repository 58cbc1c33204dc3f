// The recurrence expansion of generate_events: the dates its `while` loop
// visits and the occurrences it creates, as a function of the series master's
// start, end and stop time, the period, the iteration limit and the host's
// date library and filters.

module Recurrence {
  import opened Php

  /** The `switch ($period)` of generate_events knows three periods; any other
      value leaves the dates unchanged. */
  datatype Period = Daily | Weekly | Monthly | Unknown

  function ParsePeriod(s: string): (p: Period)
    ensures p == Daily <==> s == "daily"
    ensures p == Weekly <==> s == "weekly"
    ensures p == Monthly <==> s == "monthly"
  {
    if s == "daily" then Daily
    else if s == "weekly" then Weekly
    else if s == "monthly" then Monthly
    else Unknown
  }

  /** strtotime('+1 Days'), '+1 Weeks', '+1 Months' and '+1 Years' relative to a
      timestamp, as the host's date library computes them. */
  datatype DateLibrary = DateLibrary(
    addDay: Int64 -> Int64,
    addWeek: Int64 -> Int64,
    addMonth: Int64 -> Int64,
    addYear: Int64 -> Int64)

  /** The be_calendar_recurrance_start / be_calendar_recurrance_end filters:
      (stepped value, previous start, period, master id, last created id). */
  type DateFilter = (Int64, Int64, string, nat, Option<nat>) -> Int64

  /** What the host supplies to the engine: theme support for recurring events
      and event categories, the be_calendar_recurring_limit filter (100 unless
      overridden), the date library, the two date filters and the
      be_events_manager_recurring_meta keys. */
  datatype Policy = Policy(
    supported: bool,
    categories: bool,
    limit: int,
    dates: DateLibrary,
    startFilter: DateFilter,
    endFilter: DateFilter,
    metaKeys: seq<string>)

  const DefaultLimit: int := 100

  /** One expansion pass over a series master: its id and period, the master's
      own start (`$parent_start`), the stop time, the regenerating flag and the
      current time the pass compares against. */
  datatype Pass = Pass(
    id: nat,
    period: string,
    origin: Int64,
    stop: Int64,
    regenerating: bool,
    now: int)

  /** The start and end of one created occurrence. */
  datatype Occurrence = Occurrence(start: Int64, end: Int64)

  /** The switch on the period: one day, week or month later, else unchanged. */
  function Advance(dates: DateLibrary, period: string, t: Int64): Int64 {
    match ParsePeriod(period)
    case Daily => dates.addDay(t)
    case Weekly => dates.addWeek(t)
    case Monthly => dates.addMonth(t)
    case Unknown => t
  }

  /** The next start: the period step, then the start filter. */
  function NextStart(pol: Policy, p: Pass, start: Int64, last: Option<nat>): Int64 {
    pol.startFilter(Advance(pol.dates, p.period, start), start, p.period, p.id, last)
  }

  /** The next end: the period step, then the end filter, which is handed the
      previous START (not the previous end). */
  function NextEnd(pol: Policy, p: Pass, start: Int64, end: Int64, last: Option<nat>): Int64 {
    pol.endFilter(Advance(pol.dates, p.period, end), start, p.period, p.id, last)
  }

  /** The test inside the loop: never the master's own start, and in
      regenerating mode only starts after the current time. */
  predicate Creates(p: Pass, start: Int64) {
    start != p.origin && (!p.regenerating || (p.regenerating && start > p.now))
  }

  /** The occurrences the loop creates from iteration `i` on, given the current
      start/end, the id of the last created event and the id the next one gets. */
  function Expand(pol: Policy, p: Pass, start: Int64, end: Int64, i: int, last: Option<nat>, next: nat): seq<Occurrence>
    decreases pol.limit - i
  {
    if start < p.stop && i < pol.limit then
      var create := Creates(p, start);
      var last' := if create then Some(next) else last;
      var next' := if create then next + 1 else next;
      (if create then [Occurrence(start, end)] else [])
      + Expand(pol, p, NextStart(pol, p, start, last'), NextEnd(pol, p, start, end, last'), i + 1, last', next')
    else
      []
  }

  /** The occurrences of a whole pass: the loop starts at the master's own
      start and end with `$i = 1`, before any event was created. */
  function Occurrences(pol: Policy, p: Pass, end: Int64, next: nat): seq<Occurrence> {
    Expand(pol, p, p.origin, end, 1, None, next)
  }

  /** What every created occurrence satisfies. */
  predicate Admissible(p: Pass, o: Occurrence) {
    o.start != p.origin && o.start < p.stop && (p.regenerating ==> o.start > p.now)
  }

  function Max0(n: int): nat {
    if n < 0 then 0 else n
  }

  /** One turn of the loop keeps "the occurrences created so far followed by
      those still to come are the whole pass": a created occurrence moves
      from the second part to the first. */
  lemma ExpandAdvance(pol: Policy, p: Pass, start: Int64, end: Int64, i: int, last: Option<nat>, next: nat,
                      created: seq<Occurrence>, all: seq<Occurrence>,
                      last': Option<nat>, next': nat, created': seq<Occurrence>)
    requires start < p.stop && i < pol.limit
    requires created + Expand(pol, p, start, end, i, last, next) == all
    requires Creates(p, start) ==> last' == Some(next) && next' == next + 1 && created' == created + [Occurrence(start, end)]
    requires !Creates(p, start) ==> last' == last && next' == next && created' == created
    ensures created' + Expand(pol, p, NextStart(pol, p, start, last'), NextEnd(pol, p, start, end, last'), i + 1, last', next') == all
  {
    var rest := Expand(pol, p, NextStart(pol, p, start, last'), NextEnd(pol, p, start, end, last'), i + 1, last', next');
    if Creates(p, start) {
      assert Expand(pol, p, start, end, i, last, next) == [Occurrence(start, end)] + rest;
      assert created + [Occurrence(start, end)] + rest == created + ([Occurrence(start, end)] + rest);
    } else {
      assert Expand(pol, p, start, end, i, last, next) == [] + rest;
      assert [] + rest == rest;
    }
  }

  // ---- properties of the expansion ----

  /** Each iteration creates at most one occurrence, and the loop runs at most
      limit - i more times. */
  lemma {:induction false} ExpandLength(pol: Policy, p: Pass, start: Int64, end: Int64, i: int, last: Option<nat>, next: nat)
    ensures |Expand(pol, p, start, end, i, last, next)| <= Max0(pol.limit - i)
    ensures start == p.origin ==> |Expand(pol, p, start, end, i, last, next)| <= Max0(pol.limit - i - 1)
    decreases pol.limit - i
  {
    if start < p.stop && i < pol.limit {
      var create := Creates(p, start);
      var last' := if create then Some(next) else last;
      var next' := if create then next + 1 else next;
      ExpandLength(pol, p, NextStart(pol, p, start, last'), NextEnd(pol, p, start, end, last'), i + 1, last', next');
    }
  }

  /** A pass creates at most limit - 2 occurrences: the loop body runs at most
      limit - 1 times and its first run is the master's own start. */
  lemma OccurrencesBound(pol: Policy, p: Pass, end: Int64, next: nat)
    ensures |Occurrences(pol, p, end, next)| <= Max0(pol.limit - 2)
  {
    ExpandLength(pol, p, p.origin, end, 1, None, next);
  }

  /** Every created occurrence differs from the master's start, lies before the
      stop time and, when regenerating, after the current time. */
  lemma {:induction false} ExpandAdmissible(pol: Policy, p: Pass, start: Int64, end: Int64, i: int, last: Option<nat>, next: nat)
    ensures forall k :: 0 <= k < |Expand(pol, p, start, end, i, last, next)| ==> Admissible(p, Expand(pol, p, start, end, i, last, next)[k])
    decreases pol.limit - i
  {
    if start < p.stop && i < pol.limit {
      var create := Creates(p, start);
      var last' := if create then Some(next) else last;
      var next' := if create then next + 1 else next;
      ExpandAdmissible(pol, p, NextStart(pol, p, start, last'), NextEnd(pol, p, start, end, last'), i + 1, last', next');
    }
  }

  /** The start filter leaves the stepped value alone. */
  ghost predicate StartFilterIsIdentity(pol: Policy) {
    forall t, prev, period, id, last :: pol.startFilter(t, prev, period, id, last) == t
  }

  /** With a period other than daily, weekly or monthly and no start filter, the
      start never moves off the master's start, so nothing is created. */
  lemma {:induction false} UnknownPeriodExpandsToNothing(pol: Policy, p: Pass, end: Int64, i: int, last: Option<nat>, next: nat)
    requires ParsePeriod(p.period) == Unknown && StartFilterIsIdentity(pol)
    ensures Expand(pol, p, p.origin, end, i, last, next) == []
    decreases pol.limit - i
  {
    if p.origin < p.stop && i < pol.limit {
      assert NextStart(pol, p, p.origin, last) == p.origin;
      UnknownPeriodExpandsToNothing(pol, p, NextEnd(pol, p, p.origin, end, last), i + 1, last, next);
    }
  }

  /** The date library moves every timestamp below PHP_INT_MAX strictly forward. */
  ghost predicate MovesForward(dates: DateLibrary) {
    (forall t: Int64 :: t < MaxInt64 ==> dates.addDay(t) > t)
    && (forall t: Int64 :: t < MaxInt64 ==> dates.addWeek(t) > t)
    && (forall t: Int64 :: t < MaxInt64 ==> dates.addMonth(t) > t)
  }

  predicate StrictlyIncreasing(occs: seq<Occurrence>) {
    forall j, k :: 0 <= j < k < |occs| ==> occs[j].start < occs[k].start
  }

  /** For a known period, a forward-moving date library and no start filter,
      the created occurrences are in strictly increasing order of start, all
      at or after the current start: no two children share a start. */
  lemma {:induction false} ExpandIncreasing(pol: Policy, p: Pass, start: Int64, end: Int64, i: int, last: Option<nat>, next: nat)
    requires ParsePeriod(p.period) != Unknown && MovesForward(pol.dates) && StartFilterIsIdentity(pol)
    ensures StrictlyIncreasing(Expand(pol, p, start, end, i, last, next))
    ensures forall k :: 0 <= k < |Expand(pol, p, start, end, i, last, next)| ==> Expand(pol, p, start, end, i, last, next)[k].start >= start
    decreases pol.limit - i
  {
    if start < p.stop && i < pol.limit {
      var create := Creates(p, start);
      var last' := if create then Some(next) else last;
      var next' := if create then next + 1 else next;
      var start' := NextStart(pol, p, start, last');
      assert start' > start;
      ExpandIncreasing(pol, p, start', NextEnd(pol, p, start, end, last'), i + 1, last', next');
    }
  }

  // ---- a worked example: a daily series over three days ----

  const Day: int := 86400

  function AddSeconds(n: nat): Int64 -> Int64 {
    t => if t <= MaxInt64 - n then t + n else MaxInt64
  }

  function Unfiltered(): DateFilter {
    (t, prev, period, id, last) => t
  }

  /** A daily master starting at T, one hour long, with a stop time three days
      later and the default limit: two children, one and two days after T; the
      third day is the stop time itself and is excluded. */
  lemma DailyThreeDays(t: Int64, id: nat, next: nat)
    requires 0 <= t <= 4_000_000_000
    ensures
      var pol := Policy(true, false, DefaultLimit,
        DateLibrary(AddSeconds(Day), AddSeconds(7 * Day), AddSeconds(31 * Day), AddSeconds(365 * Day)),
        Unfiltered(), Unfiltered(), []);
      var p := Pass(id, "daily", t, t + 3 * Day, false, 0);
      Occurrences(pol, p, t + 3600, next)
        == [Occurrence(t + Day, t + Day + 3600), Occurrence(t + 2 * Day, t + 2 * Day + 3600)]
  {
    var pol := Policy(true, false, DefaultLimit,
      DateLibrary(AddSeconds(Day), AddSeconds(7 * Day), AddSeconds(31 * Day), AddSeconds(365 * Day)),
      Unfiltered(), Unfiltered(), []);
    var p := Pass(id, "daily", t, t + 3 * Day, false, 0);
    assert Expand(pol, p, t + 3 * Day, t + 3 * Day + 3600, 4, Some(next + 1), next + 2) == [];
    assert Expand(pol, p, t + 2 * Day, t + 2 * Day + 3600, 3, Some(next), next + 1)
      == [Occurrence(t + 2 * Day, t + 2 * Day + 3600)];
    assert Expand(pol, p, t + Day, t + Day + 3600, 2, None, next)
      == [Occurrence(t + Day, t + Day + 3600), Occurrence(t + 2 * Day, t + 2 * Day + 3600)];
  }
}
