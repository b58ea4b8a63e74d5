/** The chart and headline figures of `lib/services/analyticsService.ts`,
    as folds over the rows its queries return. Every query result is an
    input: `None` stands for a query whose `data` came back `null`, and
    `failed` for an exception caught by the function's `catch`. */
module Analytics {
  import opened Wrappers
  import opened Text

  // ------------------------------------------------------------------ rows

  /** What `typeof metadata.stepIndex` reveals about an event's step index.
      `NonInteger` covers fractional numbers, `NaN` and the infinities, and
      is abstracted as counting towards no step. In IEEE doubles a fraction
      very close to an integer can still land on a key once 1 is added
      (`0.9999999999999999 + 1 === 2`); the model does not follow that
      rounding. */
  datatype IndexValue = Missing | NotNumber | Integer(n: int) | NonInteger

  /** An event's `metadata` column: absent or `null`, a non-object JSON
      value, or an object (arrays included) with its `stepIndex` member. */
  datatype Metadata = NoMetadata | Scalar | Object(stepIndex: IndexValue)

  /** `Date.prototype.getDay()` of the event's timestamp, Sunday = 0. */
  type Weekday = d: int | 0 <= d < 7

  /** A `tour_analytics` row. `inLastWeek` says whether its timestamp passes
      the `gte(sevenDaysAgo)` filter; the clock itself is not modelled. */
  datatype Event = Event(tourId: int, kind: string, metadata: Metadata, weekday: Weekday, inLastWeek: bool)

  /** The columns of a `tours` row these functions select. */
  datatype TourRow = TourRow(id: int, total_steps: Option<int>, status: string)

  function TourIds(tours: seq<TourRow>): (ids: seq<int>)
    ensures |ids| == |tours|
    ensures forall i :: 0 <= i < |tours| ==> ids[i] == tours[i].id
  {
    seq(|tours|, i requires 0 <= i < |tours| => tours[i].id)
  }

  /** `.in('tour_id', tourIds).in('type', kinds)`: the matching rows, in
      table order. */
  function Select(events: seq<Event>, ids: seq<int>, kinds: set<string>): (r: seq<Event>)
    ensures |r| <= |events|
    ensures forall e :: e in r <==> e in events && e.tourId in ids && e.kind in kinds
  {
    if events == [] then []
    else
      var init, last := events[..|events| - 1], events[|events| - 1];
      assert events == init + [last];
      Select(init, ids, kinds) + (if last.tourId in ids && last.kind in kinds then [last] else [])
  }

  /** The rows of a query that may have returned `null`, `null` read as none. */
  function RowsOrNone(events: Option<seq<Event>>, ids: seq<int>, kinds: set<string>): (r: seq<Event>)
    ensures events.None? ==> r == []
    ensures events.Some? ==> r == Select(events.value, ids, kinds)
  {
    match events
    case None => []
    case Some(rows) => Select(rows, ids, kinds)
  }

  // -------------------------------------------------------------- rounding

  /** `Math.round(part / whole * 100)` for non-negative counts: the integer
      nearest to the percentage, halves rounded up. */
  function RoundPercent(part: nat, whole: nat): (r: nat)
    requires whole > 0
    ensures 2 * whole * r <= 200 * part + whole < 2 * whole * (r + 1)
  {
    (200 * part + whole) / (2 * whole)
  }

  /** A share never rounds above 100, a whole rounds to exactly 100, and
      a zero share rounds to 0. */
  lemma RoundPercentBounds(part: nat, whole: nat)
    requires whole > 0
    ensures part <= whole ==> RoundPercent(part, whole) <= 100
    ensures part == whole ==> RoundPercent(part, whole) == 100
    ensures part == 0 ==> RoundPercent(part, whole) == 0
  {
    var r := RoundPercent(part, whole);
    if part <= whole && r > 100 {
      MulMono(2 * whole, 101, r);
    }
    if part == whole && r < 100 {
      MulMono(2 * whole, r + 1, 100);
    }
    if part == 0 && r > 0 {
      MulMono(2 * whole, 1, r);
    }
  }

  lemma MulMono(c: nat, a: int, b: int)
    requires a <= b
    ensures c * a <= c * b
  {
  }

  // --------------------------------------------------------------- metrics

  datatype Metrics = Metrics(totalViews: nat, completionRate: nat, avgTimeSpent: string)

  /** The figures reported when the user has no tours or the call fails. */
  const NoMetrics := Metrics(0, 0, "0m 0s")

  /** The average time is a fixed placeholder in the source. */
  const PlaceholderTime := "2m 34s"

  /** `getAnalyticsMetrics`: tour starts as views, and completions over
      starts as a rounded percentage (0 without starts). The starts and the
      completions are two queries, and either can come back `null` on its
      own, which reads as no rows. */
  function GetAnalyticsMetrics(tours: Option<seq<TourRow>>, starts: Option<seq<Event>>,
                               completions: Option<seq<Event>>, failed: bool)
    : (m: Metrics)
    ensures failed || tours.None? || tours.value == [] ==> m == NoMetrics
    ensures !(failed || tours.None? || tours.value == []) ==>
      var ids := TourIds(tours.value);
      var views := |RowsOrNone(starts, ids, {"tour_started"})|;
      var done := |RowsOrNone(completions, ids, {"tour_completed"})|;
      && m.totalViews == views
      && (views == 0 ==> m.completionRate == 0)
      && (views > 0 ==> 2 * views * m.completionRate <= 200 * done + views < 2 * views * (m.completionRate + 1))
      && m.avgTimeSpent == PlaceholderTime
  {
    if failed then NoMetrics
    else match tours
      case None => NoMetrics
      case Some(rows) =>
        if rows == [] then NoMetrics
        else
          var ids := TourIds(rows);
          var views := |RowsOrNone(starts, ids, {"tour_started"})|;
          var done := |RowsOrNone(completions, ids, {"tour_completed"})|;
          var rate := if views > 0 then RoundPercent(done, views) else 0;
          Metrics(views, rate, PlaceholderTime)
  }

  /** When both queries read the same events table and there are no more
      completions than starts, the completion rate is a percentage in
      `[0, 100]`, and it is 100 when every start completed. */
  lemma CompletionRateBounded(tours: seq<TourRow>, events: seq<Event>)
    requires tours != []
    ensures var ids := TourIds(tours);
      var views := |Select(events, ids, {"tour_started"})|;
      var done := |Select(events, ids, {"tour_completed"})|;
      var m := GetAnalyticsMetrics(Some(tours), Some(events), Some(events), false);
      && (done <= views ==> m.completionRate <= 100)
      && (done == views ==> m.completionRate == (if views == 0 then 0 else 100))
  {
    var ids := TourIds(tours);
    var views := |Select(events, ids, {"tour_started"})|;
    var done := |Select(events, ids, {"tour_completed"})|;
    if views > 0 {
      RoundPercentBounds(done, views);
    }
  }

  /** A completions query that comes back `null` reads as no completions:
      the starts are still reported, with a completion rate of 0. */
  lemma NullCompletionsRateZero(tours: seq<TourRow>, starts: seq<Event>)
    requires tours != []
    ensures var m := GetAnalyticsMetrics(Some(tours), Some(starts), None, false);
      && m.totalViews == |Select(starts, TourIds(tours), {"tour_started"})|
      && m.completionRate == 0
  {
    var views := |Select(starts, TourIds(tours), {"tour_started"})|;
    if views > 0 {
      RoundPercentBounds(0, views);
    }
  }

  // ---------------------------------------------------------------- weekly

  datatype DayViews = DayViews(day: string, views: nat)

  /** `days[getDay()]`: names indexed from Sunday. */
  const DayNames: seq<string> := ["Sun", "Mon", "Tue", "Wed", "Thu", "Fri", "Sat"]

  /** The order the chart lists the days in. */
  const OrderedDays: seq<string> := ["Mon", "Tue", "Wed", "Thu", "Fri", "Sat", "Sun"]

  /** The `getDay()` index of the `k`-th listed day: Monday first, Sunday
      last. */
  function DayIndex(k: int): (d: int)
    requires 0 <= k < 7
    ensures 0 <= d < 7 && DayNames[d] == OrderedDays[k]
  {
    if k == 6 then 0 else k + 1
  }

  /** The number of events falling on weekday `d`. */
  function DayCount(events: seq<Event>, d: int): (r: nat)
    ensures r <= |events|
  {
    if events == [] then 0
    else DayCount(events[..|events| - 1], d) + (if events[|events| - 1].weekday == d then 1 else 0)
  }

  /** The sum of the seven day counts. */
  function WeekTotal(events: seq<Event>): nat {
    DayCount(events, 0) + DayCount(events, 1) + DayCount(events, 2) + DayCount(events, 3)
    + DayCount(events, 4) + DayCount(events, 5) + DayCount(events, 6)
  }

  /** Every event falls on exactly one weekday, so the day counts add up to
      the number of events. */
  lemma {:induction false} WeekTotalCounts(events: seq<Event>)
    ensures WeekTotal(events) == |events|
  {
    if events != [] {
      WeekTotalCounts(events[..|events| - 1]);
    }
  }

  /** The `forEach` that bumps `viewsByDay[days[getDay()]]`, indexed by
      weekday number. */
  method TallyByWeekday(events: seq<Event>) returns (counts: seq<nat>)
    ensures |counts| == 7
    ensures forall d :: 0 <= d < 7 ==> counts[d] == DayCount(events, d)
  {
    counts := [0, 0, 0, 0, 0, 0, 0];
    var i := 0;
    while i < |events|
      invariant 0 <= i <= |events|
      invariant |counts| == 7
      invariant forall d :: 0 <= d < 7 ==> counts[d] == DayCount(events[..i], d)
    {
      var d := events[i].weekday;
      assert events[..i + 1][..i] == events[..i];
      counts := counts[d := counts[d] + 1];
      i := i + 1;
    }
    assert events[..i] == events;
  }

  /** The sum of a chart's views. */
  function SumViews(days: seq<DayViews>): nat {
    if days == [] then 0 else SumViews(days[..|days| - 1]) + days[|days| - 1].views
  }

  /** `getWeeklyData`: the last week's tour starts bucketed by weekday,
      listed Monday to Sunday; `[]` without tours or on failure. */
  method GetWeeklyData(tours: Option<seq<TourRow>>, events: Option<seq<Event>>, failed: bool)
    returns (r: seq<DayViews>)
    ensures failed || tours.None? || tours.value == [] ==> r == []
    ensures !(failed || tours.None? || tours.value == []) ==>
      var recent := RecentStarts(events, TourIds(tours.value));
      && |r| == 7
      && (forall k :: 0 <= k < 7 ==>
            r[k].day == OrderedDays[k] && r[k].views == DayCount(recent, DayIndex(k)))
      && SumViews(r) == |recent|
  {
    if failed || tours.None? || tours.value == [] {
      return [];
    }
    var recent := RecentStarts(events, TourIds(tours.value));
    var counts := TallyByWeekday(recent);
    r := seq(7, k requires 0 <= k < 7 => DayViews(OrderedDays[k], counts[DayIndex(k)]));
    WeekChartSum(r, recent);
  }

  /** A chart holding each weekday's count once sums to the events. */
  lemma WeekChartSum(r: seq<DayViews>, recent: seq<Event>)
    requires |r| == 7
    requires forall k :: 0 <= k < 7 ==> r[k].views == DayCount(recent, DayIndex(k))
    ensures SumViews(r) == |recent|
  {
    WeekTotalCounts(recent);
    SumSeven(r);
    assert r[0].views == DayCount(recent, 1) && r[1].views == DayCount(recent, 2);
    assert r[2].views == DayCount(recent, 3) && r[3].views == DayCount(recent, 4);
    assert r[4].views == DayCount(recent, 5) && r[5].views == DayCount(recent, 6);
    assert r[6].views == DayCount(recent, 0);
  }

  /** The sum of a seven-day chart, written out. */
  lemma SumSeven(r: seq<DayViews>)
    requires |r| == 7
    ensures SumViews(r) == r[0].views + r[1].views + r[2].views + r[3].views
                         + r[4].views + r[5].views + r[6].views
  {
    assert r[..0] == [];
    SumViewsSnoc(r, 0);
    SumViewsSnoc(r, 1);
    SumViewsSnoc(r, 2);
    SumViewsSnoc(r, 3);
    SumViewsSnoc(r, 4);
    SumViewsSnoc(r, 5);
    SumViewsSnoc(r, 6);
    assert r[..7] == r;
  }

  lemma SumViewsSnoc(days: seq<DayViews>, k: nat)
    requires k < |days|
    ensures SumViews(days[..k + 1]) == SumViews(days[..k]) + days[k].views
  {
    assert days[..k + 1][..k] == days[..k];
  }

  /** The tour starts of the last seven days, `[]` when the query came back
      `null`. */
  function RecentStarts(events: Option<seq<Event>>, ids: seq<int>): (r: seq<Event>)
    ensures forall e :: e in r ==> e.kind == "tour_started" && e.tourId in ids && e.inLastWeek
  {
    LastWeek(RowsOrNone(events, ids, {"tour_started"}))
  }

  /** `.gte('timestamp', sevenDaysAgo)`. */
  function LastWeek(events: seq<Event>): (r: seq<Event>)
    ensures |r| <= |events|
    ensures forall e :: e in r <==> e in events && e.inLastWeek
  {
    if events == [] then []
    else
      var init, last := events[..|events| - 1], events[|events| - 1];
      assert events == init + [last];
      LastWeek(init) + (if last.inLastWeek then [last] else [])
  }

  // ------------------------------------------------------ step performance

  datatype StepViews = StepViews(step: string, views: nat)

  /** `Step ${i}` for the chart's labels `1..5`. */
  function StepLabel(i: int): (s: string)
    requires 1 <= i <= 9
    ensures |s| == 6 && s[..5] == "Step " && s[5] == Digit(i)
  {
    "Step " + [Digit(i)]
  }

  /** `t.total_steps || 0`. */
  function StepsOrZero(t: TourRow): int {
    t.total_steps.GetOr(0)
  }

  /** `Math.max(...tours.map(t => t.total_steps || 0))` on a non-empty list. */
  function MaxSteps(tours: seq<TourRow>): (m: int)
    requires tours != []
    ensures forall i :: 0 <= i < |tours| ==> StepsOrZero(tours[i]) <= m
    ensures exists i :: 0 <= i < |tours| && StepsOrZero(tours[i]) == m
  {
    var last := StepsOrZero(tours[|tours| - 1]);
    if |tours| == 1 then last
    else
      var m := MaxSteps(tours[..|tours| - 1]);
      if last > m then last else m
  }

  /** The loop `for (i = 1; i <= Math.min(maxSteps, 5); i++)`, as a count
      of iterations: every `i` in `1..n` passes the test and `n + 1` fails
      it. */
  function ChartLength(maxSteps: int): (n: nat)
    ensures n <= 5
    ensures n == 0 || n <= maxSteps
    ensures n + 1 > 5 || n + 1 > maxSteps
  {
    if maxSteps <= 0 then 0 else if maxSteps < 5 then maxSteps else 5
  }

  /** The event's metadata is an object whose `stepIndex` is the integer
      `idx`: it counts towards step `idx + 1`. */
  predicate IndexIs(e: Event, idx: int) {
    e.metadata.Object? && e.metadata.stepIndex == Integer(idx)
  }

  /** The events counted towards step `idx + 1`. */
  function CountAt(events: seq<Event>, idx: int): (r: nat)
    ensures r <= |events|
  {
    if events == [] then 0
    else CountAt(events[..|events| - 1], idx) + (if IndexIs(events[|events| - 1], idx) then 1 else 0)
  }

  /** `stepViews[i] || 0`. */
  function Lookup(m: map<int, nat>, k: int): nat {
    if k in m then m[k] else 0
  }

  /** `m[n] = (m[n] || 0) + 1`. */
  function Bump(m: map<int, nat>, n: int): (r: map<int, nat>)
    ensures forall k :: Lookup(r, k) == Lookup(m, k) + (if k == n then 1 else 0)
  {
    m[n := Lookup(m, n) + 1]
  }

  /** The `forEach` filling `stepViews`: one per event whose metadata object
      has a numeric `stepIndex`, under key `stepIndex + 1`. */
  method TallySteps(events: seq<Event>) returns (views: map<int, nat>)
    ensures forall k :: Lookup(views, k) == CountAt(events, k - 1)
  {
    views := map[];
    var i := 0;
    while i < |events|
      invariant 0 <= i <= |events|
      invariant forall k :: Lookup(views, k) == CountAt(events[..i], k - 1)
    {
      var e := events[i];
      assert events[..i + 1][..i] == events[..i];
      if e.metadata.Object? && e.metadata.stepIndex.Integer? {
        var n := e.metadata.stepIndex.n + 1;
        views := Bump(views, n);
      }
      i := i + 1;
    }
    assert events[..i] == events;
  }

  /** `getStepPerformance`: for `i` in `1..min(maxSteps, 5)`, the step and
      completion events recorded against step `i`; `[]` without tours. */
  method GetStepPerformance(tours: Option<seq<TourRow>>, events: Option<seq<Event>>, failed: bool)
    returns (r: seq<StepViews>)
    ensures failed || tours.None? || tours.value == [] ==> r == []
    ensures !(failed || tours.None? || tours.value == []) ==>
      var rows := RowsOrNone(events, TourIds(tours.value), {"step_viewed", "step_completed"});
      && |r| == ChartLength(MaxSteps(tours.value))
      && (forall k :: 0 <= k < |r| ==> r[k] == StepViews(StepLabel(k + 1), CountAt(rows, k)))
      && SumStepViews(r) <= |rows|
  {
    if failed || tours.None? || tours.value == [] {
      return [];
    }
    var rows := RowsOrNone(events, TourIds(tours.value), {"step_viewed", "step_completed"});
    var views := TallySteps(rows);
    var n := ChartLength(MaxSteps(tours.value));
    r := [];
    var i := 1;
    while i <= n
      invariant 1 <= i <= n + 1
      invariant |r| == i - 1
      invariant forall k :: 0 <= k < |r| ==> r[k] == StepViews(StepLabel(k + 1), CountAt(rows, k))
    {
      r := r + [StepViews(StepLabel(i), Lookup(views, i))];
      i := i + 1;
    }
    ChartMatchesBuckets(r, rows);
    SumBucketsBounded(rows, |r|);
  }

  /** The sum of a step chart's views. */
  function SumStepViews(r: seq<StepViews>): nat {
    if r == [] then 0 else SumStepViews(r[..|r| - 1]) + r[|r| - 1].views
  }

  lemma {:induction false} ChartMatchesBuckets(r: seq<StepViews>, rows: seq<Event>)
    requires forall k :: 0 <= k < |r| ==> r[k].views == CountAt(rows, k)
    ensures SumStepViews(r) == SumBuckets(rows, |r|)
  {
    if r != [] {
      ChartMatchesBuckets(r[..|r| - 1], rows);
    }
  }

  /** An event without an object metadata holding an integer `stepIndex`
      leaves every step's count as it was. */
  lemma IgnoredEventsDoNotCount(events: seq<Event>, e: Event, idx: int)
    requires !(e.metadata.Object? && e.metadata.stepIndex.Integer?)
    ensures CountAt(events + [e], idx) == CountAt(events, idx)
    ensures CountKindAt(events + [e], e.kind, idx) == CountKindAt(events, e.kind, idx)
  {
    assert (events + [e])[..|events|] == events;
  }

  /** The sum of the first `n` step buckets. */
  function SumBuckets(events: seq<Event>, n: nat): nat {
    if n == 0 then 0 else SumBuckets(events, n - 1) + CountAt(events, n - 1)
  }

  /** An event counts towards at most one step, so the buckets together
      never exceed the events fetched. */
  lemma {:induction false} SumBucketsBounded(events: seq<Event>, n: nat)
    ensures SumBuckets(events, n) <= |events|
  {
    if events != [] {
      var init, last := events[..|events| - 1], events[|events| - 1];
      assert events == init + [last];
      SumBucketsBounded(init, n);
      SumBucketsSplit(init, last, n);
    } else {
      SumBucketsEmpty(n);
    }
  }

  lemma {:induction false} SumBucketsEmpty(n: nat)
    ensures SumBuckets([], n) == 0
  {
    if n > 0 {
      SumBucketsEmpty(n - 1);
    }
  }

  lemma {:induction false} SumBucketsSplit(init: seq<Event>, last: Event, n: nat)
    ensures SumBuckets(init + [last], n)
         == SumBuckets(init, n) + (if exists k :: 0 <= k < n && IndexIs(last, k) then 1 else 0)
  {
    var events := init + [last];
    assert events[..|events| - 1] == init;
    if n > 0 {
      SumBucketsSplit(init, last, n - 1);
      if IndexIs(last, n - 1) {
        assert !exists k :: 0 <= k < n - 1 && IndexIs(last, k);
      }
    }
  }

  // ----------------------------------------------------------- tour status

  datatype StatusSlice = StatusSlice(name: string, value: nat, color: string)

  /** The number of tours whose status is exactly `status`. */
  function CountStatus(tours: seq<TourRow>, status: string): (r: nat)
    ensures r <= |tours|
  {
    if tours == [] then 0
    else CountStatus(tours[..|tours| - 1], status) + (if tours[|tours| - 1].status == status then 1 else 0)
  }

  /** Tours with two different statuses are disjoint: the counts together
      never exceed the tours. */
  lemma {:induction false} CountStatusDisjoint(tours: seq<TourRow>, a: string, b: string)
    requires a != b
    ensures CountStatus(tours, a) + CountStatus(tours, b) <= |tours|
  {
    if tours != [] {
      CountStatusDisjoint(tours[..|tours| - 1], a, b);
    }
  }

  /** `getTourStatus`: the active and the inactive slice, counting exact
      lower-case matches only; `[]` without tours. */
  function GetTourStatus(tours: Option<seq<TourRow>>, failed: bool): (r: seq<StatusSlice>)
    ensures failed || tours.None? || tours.value == [] ==> r == []
    ensures !(failed || tours.None? || tours.value == []) ==>
      && |r| == 2
      && r[0] == StatusSlice("active", CountStatus(tours.value, "active"), "#9d00a8")
      && r[1] == StatusSlice("inactive", CountStatus(tours.value, "inactive"), "#334155")
      && r[0].value + r[1].value <= |tours.value|
  {
    if failed || tours.None? || tours.value == [] then []
    else
      CountStatusDisjoint(tours.value, "active", "inactive");
      [StatusSlice("active", CountStatus(tours.value, "active"), "#9d00a8"),
       StatusSlice("inactive", CountStatus(tours.value, "inactive"), "#334155")]
  }

  // ------------------------------------------------------------ skip rates

  datatype SkipRate = SkipRate(step: string, rate: nat)

  /** The events of `kind` counted towards step `idx + 1`. */
  function CountKindAt(events: seq<Event>, kind: string, idx: int): (r: nat)
    ensures r <= |events|
  {
    if events == [] then 0
    else
      var last := events[|events| - 1];
      CountKindAt(events[..|events| - 1], kind, idx) + (if last.kind == kind && IndexIs(last, idx) then 1 else 0)
  }

  /** `total > 0 ? Math.round(skips / total * 100) : 0`. */
  function SkipPercent(views: nat, skips: nat): (r: nat)
    ensures r <= 100
    ensures views + skips == 0 ==> r == 0
    ensures views + skips > 0 ==>
      2 * (views + skips) * r <= 200 * skips + (views + skips) < 2 * (views + skips) * (r + 1)
  {
    if views + skips > 0 then
      RoundPercentBounds(skips, views + skips);
      RoundPercent(skips, views + skips)
    else 0
  }

  /** The `forEach` filling `stepViews` and `stepSkips`: other kinds of
      event are ignored. */
  method TallySkips(events: seq<Event>) returns (views: map<int, nat>, skips: map<int, nat>)
    ensures forall k :: Lookup(views, k) == CountKindAt(events, "step_viewed", k - 1)
    ensures forall k :: Lookup(skips, k) == CountKindAt(events, "step_skipped", k - 1)
  {
    views, skips := map[], map[];
    assert "step_viewed" != "step_skipped" by {
      assert "step_viewed"[5] != "step_skipped"[5];
    }
    var i := 0;
    while i < |events|
      invariant 0 <= i <= |events|
      invariant forall k :: Lookup(views, k) == CountKindAt(events[..i], "step_viewed", k - 1)
      invariant forall k :: Lookup(skips, k) == CountKindAt(events[..i], "step_skipped", k - 1)
    {
      var e := events[i];
      CountKindAtSnoc(events, i, "step_viewed");
      CountKindAtSnoc(events, i, "step_skipped");
      if e.metadata.Object? && e.metadata.stepIndex.Integer? {
        var n := e.metadata.stepIndex.n + 1;
        if e.kind == "step_viewed" {
          views := Bump(views, n);
        } else if e.kind == "step_skipped" {
          skips := Bump(skips, n);
        }
      }
      i := i + 1;
    }
    assert events[..i] == events;
  }

  lemma CountKindAtSnoc(events: seq<Event>, i: nat, kind: string)
    requires i < |events|
    ensures forall idx :: (CountKindAt(events[..i + 1], kind, idx)
      == CountKindAt(events[..i], kind, idx) + (if events[i].kind == kind && IndexIs(events[i], idx) then 1 else 0))
  {
    assert events[..i + 1][..i] == events[..i];
  }

  /** `getSkipRates`: for `i` in `1..min(maxSteps, 5)`, skips over views
      plus skips of step `i`, a rounded percentage in `[0, 100]`. */
  method GetSkipRates(tours: Option<seq<TourRow>>, events: Option<seq<Event>>, failed: bool)
    returns (r: seq<SkipRate>)
    ensures failed || tours.None? || tours.value == [] ==> r == []
    ensures !(failed || tours.None? || tours.value == []) ==>
      var rows := RowsOrNone(events, TourIds(tours.value), {"step_viewed", "step_skipped"});
      && |r| == ChartLength(MaxSteps(tours.value))
      && forall k :: 0 <= k < |r| ==>
           && r[k].step == StepLabel(k + 1)
           && r[k].rate == SkipPercent(CountKindAt(rows, "step_viewed", k), CountKindAt(rows, "step_skipped", k))
           && r[k].rate <= 100
  {
    if failed || tours.None? || tours.value == [] {
      return [];
    }
    var rows := RowsOrNone(events, TourIds(tours.value), {"step_viewed", "step_skipped"});
    var views, skips := TallySkips(rows);
    var n := ChartLength(MaxSteps(tours.value));
    r := [];
    var i := 1;
    while i <= n
      invariant 1 <= i <= n + 1
      invariant |r| == i - 1
      invariant forall k :: 0 <= k < |r| ==>
        && r[k].step == StepLabel(k + 1)
        && r[k].rate == SkipPercent(CountKindAt(rows, "step_viewed", k), CountKindAt(rows, "step_skipped", k))
    {
      r := r + [SkipRate(StepLabel(i), SkipPercent(Lookup(views, i), Lookup(skips, i)))];
      i := i + 1;
    }
  }
}
