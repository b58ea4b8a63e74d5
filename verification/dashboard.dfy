/** The overview figures of `lib/services/dashboard.service.ts`: headline
    counts, the most recent tours, and the average completion rate per step
    number. Query results are inputs; `None` stands for a query that failed
    or returned no data, as the source treats both alike. */
module DashboardService {
  import opened Wrappers
  import Sorting

  // ----------------------------------------------------------------- stats

  datatype DashboardStats = DashboardStats(totalTours: int, totalSteps: int, activeTours: int, totalUsers: int)

  /** What an exception inside `getDashboardStats` yields. */
  const ZeroStats := DashboardStats(0, 0, 0, 0)

  /** The sum of the cached counts, `null` counted as 0. */
  function TotalSteps(counts: seq<Option<int>>): int {
    if counts == [] then 0
    else TotalSteps(counts[..|counts| - 1]) + counts[|counts| - 1].GetOr(0)
  }

  /** The reference sum is additive over concatenation. */
  lemma {:induction false} TotalStepsAppend(a: seq<Option<int>>, b: seq<Option<int>>)
    ensures TotalSteps(a + b) == TotalSteps(a) + TotalSteps(b)
    decreases |b|
  {
    if b == [] {
      assert a + b == a;
    } else {
      var init := b[..|b| - 1];
      assert (a + b)[..|a + b| - 1] == a + init;
      TotalStepsAppend(a, init);
    }
  }

  /** Non-negative cached counts give a non-negative total. */
  lemma {:induction false} TotalStepsNonNegative(counts: seq<Option<int>>)
    requires forall i :: 0 <= i < |counts| ==> counts[i].GetOr(0) >= 0
    ensures TotalSteps(counts) >= 0
  {
    if counts != [] {
      TotalStepsNonNegative(counts[..|counts| - 1]);
    }
  }

  /** `tours.reduce((sum, tour) => sum + (tour.total_steps || 0), 0)`. */
  method SumSteps(counts: seq<Option<int>>) returns (sum: int)
    ensures sum == TotalSteps(counts)
  {
    sum := 0;
    var i := 0;
    while i < |counts|
      invariant 0 <= i <= |counts|
      invariant sum == TotalSteps(counts[..i])
    {
      assert counts[..i + 1][..i] == counts[..i];
      sum := sum + counts[i].GetOr(0);
      i := i + 1;
    }
    assert counts[..i] == counts;
  }

  /** `getDashboardStats`: each count with `null` read as 0, the summed
      cached step counts, and all zeros when an exception escapes. */
  method GetDashboardStats(totalTours: Option<int>, activeTours: Option<int>,
                           tourCounts: Option<seq<Option<int>>>, totalUsers: Option<int>, failed: bool)
    returns (r: DashboardStats)
    ensures failed ==> r == ZeroStats
    ensures !failed ==>
      && r.totalTours == totalTours.GetOr(0)
      && r.activeTours == activeTours.GetOr(0)
      && r.totalUsers == totalUsers.GetOr(0)
      && r.totalSteps == (if tourCounts.None? then 0 else TotalSteps(tourCounts.value))
  {
    if failed {
      return ZeroStats;
    }
    var total := 0;
    if tourCounts.Some? {
      total := SumSteps(tourCounts.value);
    }
    r := DashboardStats(totalTours.GetOr(0), total, activeTours.GetOr(0), totalUsers.GetOr(0));
  }

  // ---------------------------------------------------------- recent tours

  /** The columns `getRecentTours` selects, plus the `created_at` it orders by. */
  datatype RecentTour = RecentTour(id: int, title: string, total_steps: int, status: string, created_at: int)

  /** `order('created_at', { ascending: false })` as an ascending key. */
  function NewestFirst(t: RecentTour): Option<int> {
    Some(-t.created_at)
  }

  /** The limit used when the caller gives none. */
  const DefaultLimit: nat := 3

  /** The query's ordering: the same tours, newest first. */
  function SortNewest(rows: seq<RecentTour>): (r: seq<RecentTour>)
    ensures multiset(r) == multiset(rows)
    ensures forall i, j :: 0 <= i < j < |r| ==> r[i].created_at >= r[j].created_at
  {
    assert Sorting.AllKeyed(rows, NewestFirst);
    var sorted := Sorting.SortByKey(rows, NewestFirst);
    assert forall i, j :: 0 <= i < j < |sorted| ==>
      NewestFirst(sorted[i]).value <= NewestFirst(sorted[j]).value;
    sorted
  }

  /** `getRecentTours`: the user's tours newest first, at most `limit` of
      them; `[]` when the query fails. */
  function GetRecentTours(tours: Option<seq<RecentTour>>, limit: Option<nat>): (r: seq<RecentTour>)
    ensures tours.None? ==> r == []
    ensures tours.Some? ==> IsRecent(r, tours.value, limit.GetOr(DefaultLimit))
  {
    match tours
    case None => []
    case Some(rows) =>
      var n := limit.GetOr(DefaultLimit);
      var sorted := SortNewest(rows);
      var k := if n < |rows| then n else |rows|;
      TopIsNewest(sorted, rows, k);
      sorted[..k]
  }

  /** `r` is the `n` newest of `rows` (all of them when fewer), newest first:
      nothing left out is newer than anything kept. */
  ghost predicate IsRecent(r: seq<RecentTour>, rows: seq<RecentTour>, n: nat) {
    && |r| == (if n < |rows| then n else |rows|)
    && multiset(r) <= multiset(rows)
    && (forall i, j :: 0 <= i < j < |r| ==> r[i].created_at >= r[j].created_at)
    && (forall i, y :: 0 <= i < |r| && y in multiset(rows) - multiset(r) ==>
          y.created_at <= r[i].created_at)
  }

  /** A prefix of a list sorted newest first holds the newest elements. */
  lemma TopIsNewest(sorted: seq<RecentTour>, rows: seq<RecentTour>, k: nat)
    requires multiset(sorted) == multiset(rows)
    requires k == |rows| || k < |rows|
    requires forall i, j :: 0 <= i < j < |sorted| ==> sorted[i].created_at >= sorted[j].created_at
    ensures k <= |sorted|
    ensures IsRecent(sorted[..k], rows, k)
  {
    assert |sorted| == |rows| by {
      assert |multiset(sorted)| == |multiset(rows)|;
    }
    PrefixRest(sorted, k);
    RestIsOlder(sorted, k);
  }

  lemma PrefixRest(xs: seq<RecentTour>, k: nat)
    requires k <= |xs|
    ensures multiset(xs) - multiset(xs[..k]) == multiset(xs[k..])
    ensures multiset(xs[..k]) <= multiset(xs)
  {
    assert xs == xs[..k] + xs[k..];
  }

  lemma RestIsOlder(sorted: seq<RecentTour>, k: nat)
    requires k <= |sorted|
    requires forall i, j :: 0 <= i < j < |sorted| ==> sorted[i].created_at >= sorted[j].created_at
    ensures forall i, y :: 0 <= i < k && y in sorted[k..] ==> y.created_at <= sorted[i].created_at
  {
    forall i, y | 0 <= i < k && y in sorted[k..]
      ensures y.created_at <= sorted[i].created_at
    {
      var j :| 0 <= j < |sorted| - k && sorted[k..][j] == y;
      assert sorted[k + j] == y;
    }
  }

  // ---------------------------------------------- average step performance

  /** A row of the `tour_steps` query: its step number and completion rate. */
  datatype PerfRow = PerfRow(step_number: int, completion_rate: real)

  datatype StepPerformance = StepPerformance(step_number: int, completion_rate: real)

  /** The sample series shown when there is nothing to average. */
  const Fallback: seq<StepPerformance> := [
    StepPerformance(1, 95.0), StepPerformance(2, 94.0), StepPerformance(3, 94.0),
    StepPerformance(4, 93.0), StepPerformance(5, 75.0)]

  /** The rates of the rows with step number `n`, in row order. */
  function RatesFor(rows: seq<PerfRow>, n: int): (r: seq<real>)
    ensures |r| <= |rows|
  {
    if rows == [] then []
    else
      var last := rows[|rows| - 1];
      RatesFor(rows[..|rows| - 1], n) + (if last.step_number == n then [last.completion_rate] else [])
  }

  /** The step numbers occurring in the rows. */
  function NumbersOf(rows: seq<PerfRow>): set<int> {
    set r | r in rows :: r.step_number
  }

  /** A step number has rates exactly when it occurs. */
  lemma {:induction false} RatesForOccurs(rows: seq<PerfRow>, n: int)
    ensures RatesFor(rows, n) != [] <==> n in NumbersOf(rows)
  {
    if rows != [] {
      var init, last := rows[..|rows| - 1], rows[|rows| - 1];
      RatesForOccurs(init, n);
      assert rows == init + [last];
      assert NumbersOf(rows) == NumbersOf(init) + {last.step_number};
    }
  }

  function Sum(xs: seq<real>): real {
    if xs == [] then 0.0 else Sum(xs[..|xs| - 1]) + xs[|xs| - 1]
  }

  /** `rates.reduce((sum, rate) => sum + rate, 0) / rates.length`, exactly. */
  function Mean(rates: seq<real>): real
    requires rates != []
  {
    Sum(rates) / |rates| as real
  }

  /** `Math.round(x * 100) / 100`, exactly: the nearest hundredth, halves
      rounded up. */
  function RoundCents(x: real): (r: real)
    ensures r * 100.0 <= x * 100.0 + 0.5 < r * 100.0 + 1.0
    ensures x - 0.005 < r <= x + 0.005
  {
    (x * 100.0 + 0.5).Floor as real / 100.0
  }

  lemma {:induction false} SumBounded(xs: seq<real>, lo: real, hi: real)
    requires forall i :: 0 <= i < |xs| ==> lo <= xs[i] <= hi
    ensures lo * |xs| as real <= Sum(xs) <= hi * |xs| as real
  {
    if xs != [] {
      SumBounded(xs[..|xs| - 1], lo, hi);
    }
  }

  /** The mean of rates within `[lo, hi]` lies within `[lo, hi]`. */
  lemma MeanBounded(rates: seq<real>, lo: real, hi: real)
    requires rates != []
    requires forall i :: 0 <= i < |rates| ==> lo <= rates[i] <= hi
    ensures lo <= Mean(rates) <= hi
  {
    SumBounded(rates, lo, hi);
    var n := |rates| as real;
    DivBounds(Sum(rates), n, lo, hi);
  }

  lemma DivBounds(s: real, n: real, lo: real, hi: real)
    requires n > 0.0
    requires lo * n <= s <= hi * n
    ensures lo <= s / n <= hi
  {
    var q := s / n;
    assert q * n == s;
  }

  /** An entry of the `stepMap` built by the `forEach`. */
  datatype Group = Group(key: int, rates: seq<real>)

  function KeysOf(groups: seq<Group>): (ks: seq<int>)
    ensures |ks| == |groups|
    ensures forall j :: 0 <= j < |groups| ==> ks[j] == groups[j].key
  {
    seq(|groups|, j requires 0 <= j < |groups| => groups[j].key)
  }

  /** Position of the group for `n`, or `|groups|` when there is none. */
  function FindGroup(groups: seq<Group>, n: int): (j: nat)
    ensures j <= |groups|
    ensures j < |groups| ==> groups[j].key == n
    ensures j == |groups| ==> n !in KeysOf(groups)
  {
    if groups == [] then 0
    else if groups[0].key == n then 0
    else
      var j := FindGroup(groups[1..], n);
      assert KeysOf(groups) == [groups[0].key] + KeysOf(groups[1..]);
      1 + j
  }

  /** The groups of `rows` so far: distinct keys, each holding its rates,
      one for every step number that occurs. */
  ghost predicate Grouped(groups: seq<Group>, rows: seq<PerfRow>) {
    && (forall j, k :: 0 <= j < k < |groups| ==> groups[j].key != groups[k].key)
    && (forall j :: 0 <= j < |groups| ==> groups[j].rates == RatesFor(rows, groups[j].key))
    && (forall n :: n in KeysOf(groups) <==> RatesFor(rows, n) != [])
  }

  lemma RatesForSnoc(rows: seq<PerfRow>, i: nat)
    requires i < |rows|
    ensures forall n :: (RatesFor(rows[..i + 1], n)
      == RatesFor(rows[..i], n) + (if rows[i].step_number == n then [rows[i].completion_rate] else []))
  {
    assert rows[..i + 1][..i] == rows[..i];
  }

  /** A row whose step number already has a group extends that group. */
  lemma GroupedExtend(groups: seq<Group>, rows: seq<PerfRow>, i: nat, j: nat)
    requires i < |rows| && j < |groups|
    requires Grouped(groups, rows[..i])
    requires groups[j].key == rows[i].step_number
    ensures Grouped(groups[j := Group(rows[i].step_number, groups[j].rates + [rows[i].completion_rate])], rows[..i + 1])
  {
    RatesForSnoc(rows, i);
    var after := groups[j := Group(rows[i].step_number, groups[j].rates + [rows[i].completion_rate])];
    assert KeysOf(after) == KeysOf(groups);
    forall n
      ensures n in KeysOf(after) <==> RatesFor(rows[..i + 1], n) != []
    {
      if n == rows[i].step_number {
        assert KeysOf(after)[j] == n;
      }
    }
  }

  /** A row with a new step number opens a group at the end. */
  lemma GroupedOpen(groups: seq<Group>, rows: seq<PerfRow>, i: nat)
    requires i < |rows|
    requires Grouped(groups, rows[..i])
    requires rows[i].step_number !in KeysOf(groups)
    ensures Grouped(groups + [Group(rows[i].step_number, [rows[i].completion_rate])], rows[..i + 1])
  {
    RatesForSnoc(rows, i);
    var after := groups + [Group(rows[i].step_number, [rows[i].completion_rate])];
    assert KeysOf(after) == KeysOf(groups) + [rows[i].step_number];
    assert RatesFor(rows[..i], rows[i].step_number) == [];
    forall j, k | 0 <= j < k < |after|
      ensures after[j].key != after[k].key
    {
      if k == |groups| {
        assert KeysOf(groups)[j] == after[j].key;
      }
    }
  }

  /** The `forEach` that fills `stepMap`, in first-occurrence order. */
  method GroupByStep(rows: seq<PerfRow>) returns (groups: seq<Group>)
    ensures Grouped(groups, rows)
  {
    groups := [];
    var i := 0;
    while i < |rows|
      invariant 0 <= i <= |rows|
      invariant Grouped(groups, rows[..i])
    {
      var row := rows[i];
      var j := FindGroup(groups, row.step_number);
      if j < |groups| {
        GroupedExtend(groups, rows, i, j);
        groups := groups[j := Group(row.step_number, groups[j].rates + [row.completion_rate])];
      } else {
        GroupedOpen(groups, rows, i);
        groups := groups + [Group(row.step_number, [row.completion_rate])];
      }
      i := i + 1;
    }
    assert rows[..i] == rows;
  }

  /** One averaged entry per group, each rate the rounded mean of its group. */
  function Averages(groups: seq<Group>): (r: seq<StepPerformance>)
    requires forall j :: 0 <= j < |groups| ==> groups[j].rates != []
    ensures |r| == |groups|
    ensures forall j :: 0 <= j < |groups| ==>
      r[j] == StepPerformance(groups[j].key, RoundCents(Mean(groups[j].rates)))
  {
    seq(|groups|, j requires 0 <= j < |groups| =>
      StepPerformance(groups[j].key, RoundCents(Mean(groups[j].rates))))
  }

  /** `averages.sort((a, b) => a.step_number - b.step_number)` as an ascending key. */
  function ByStepNumber(p: StepPerformance): Option<int> {
    Some(p.step_number)
  }

  predicate DistinctNumbers(ps: seq<StepPerformance>) {
    forall i, j :: 0 <= i < j < |ps| ==> ps[i].step_number != ps[j].step_number
  }

  /** With distinct step numbers no entry occurs twice. */
  lemma {:induction false} DistinctNumbersOnce(ps: seq<StepPerformance>, x: StepPerformance)
    requires DistinctNumbers(ps)
    ensures multiset(ps)[x] <= 1
  {
    if ps != [] {
      var init, last := ps[..|ps| - 1], ps[|ps| - 1];
      assert ps == init + [last];
      DistinctNumbersOnce(init, x);
      if x == last {
        forall k | 0 <= k < |init|
          ensures init[k] != x
        {
          assert ps[k].step_number != ps[|ps| - 1].step_number;
        }
      }
    }
  }

  /** An entry at two positions occurs at least twice. */
  lemma Twice(r: seq<StepPerformance>, i: nat, j: nat)
    requires i < j < |r|
    ensures r[i] == r[j] ==> multiset(r)[r[i]] >= 2
  {
    assert r == r[..j] + r[j..];
    assert r[i] == r[..j][i];
    assert r[j] == r[j..][0];
  }

  /** Rearranging keeps step numbers distinct. */
  lemma RearrangedDistinct(r: seq<StepPerformance>, a: seq<StepPerformance>)
    requires multiset(r) == multiset(a)
    requires DistinctNumbers(a)
    ensures DistinctNumbers(r)
  {
    forall i, j | 0 <= i < j < |r|
      ensures r[i].step_number != r[j].step_number
    {
      assert r[i] in multiset(a) && r[j] in multiset(a);
      var p :| 0 <= p < |a| && a[p] == r[i];
      var q :| 0 <= q < |a| && a[q] == r[j];
      if p == q {
        Twice(r, i, j);
        DistinctNumbersOnce(a, r[i]);
        assert false;
      } else if p < q {
        assert a[p].step_number != a[q].step_number;
      } else {
        assert a[q].step_number != a[p].step_number;
      }
    }
  }

  /** `r` summarises `rows`: one entry per step number that occurs, in
      strictly ascending order, each the rounded mean of that number's rates. */
  ghost predicate Summarises(r: seq<StepPerformance>, rows: seq<PerfRow>) {
    && (forall i, j :: 0 <= i < j < |r| ==> r[i].step_number < r[j].step_number)
    && (forall n :: (exists k :: 0 <= k < |r| && r[k].step_number == n) <==> n in NumbersOf(rows))
    && (forall k :: 0 <= k < |r| ==>
          RatesFor(rows, r[k].step_number) != [] &&
          r[k].completion_rate == RoundCents(Mean(RatesFor(rows, r[k].step_number))))
  }

  /** `getAverageStepPerformance`: the sample series when the user has no
      tours, the step query fails or returns no rows; otherwise the summary
      of the rows. */
  method GetAverageStepPerformance(tours: Option<seq<int>>, query: Option<seq<PerfRow>>)
    returns (r: seq<StepPerformance>)
    ensures (tours.None? || tours.value == [] || query.None? || query.value == []) ==> r == Fallback
    ensures tours.Some? && tours.value != [] && query.Some? && query.value != [] ==>
      Summarises(r, query.value)
  {
    if tours.None? || tours.value == [] || query.None? || query.value == [] {
      return Fallback;
    }
    var rows := query.value;
    var groups := GroupByStep(rows);
    GroupsNonEmpty(groups, rows);
    var avgs := Averages(groups);
    r := Sorting.SortByKey(avgs, ByStepNumber);
    SortedGroupsSummarise(groups, rows, r);
  }

  /** Every group holds at least one rate. */
  lemma GroupsNonEmpty(groups: seq<Group>, rows: seq<PerfRow>)
    requires Grouped(groups, rows)
    ensures forall j :: 0 <= j < |groups| ==> groups[j].rates != []
  {
    forall j | 0 <= j < |groups|
      ensures groups[j].rates != []
    {
      assert groups[j].key in KeysOf(groups);
    }
  }

  /** Sorting the groups' averages by step number summarises the rows. */
  lemma SortedGroupsSummarise(groups: seq<Group>, rows: seq<PerfRow>, r: seq<StepPerformance>)
    requires Grouped(groups, rows)
    requires forall j :: 0 <= j < |groups| ==> groups[j].rates != []
    requires r == Sorting.SortByKey(Averages(groups), ByStepNumber)
    ensures Summarises(r, rows)
  {
    var avgs := Averages(groups);
    assert DistinctNumbers(avgs);
    assert Sorting.AllKeyed(avgs, ByStepNumber);
    RearrangedDistinct(r, avgs);
    assert forall i, j :: 0 <= i < j < |r| ==> r[i].step_number <= r[j].step_number;
    forall n
      ensures (exists k :: 0 <= k < |r| && r[k].step_number == n) <==> n in NumbersOf(rows)
    {
      SummaryCovers(groups, rows, r, n);
    }
    forall k | 0 <= k < |r|
      ensures RatesFor(rows, r[k].step_number) != [] &&
              r[k].completion_rate == RoundCents(Mean(RatesFor(rows, r[k].step_number)))
    {
      SummaryRate(groups, rows, r, k);
    }
  }

  /** Each entry holds the rounded mean of its step number's rates. */
  lemma SummaryRate(groups: seq<Group>, rows: seq<PerfRow>, r: seq<StepPerformance>, k: int)
    requires Grouped(groups, rows)
    requires forall j :: 0 <= j < |groups| ==> groups[j].rates != []
    requires multiset(r) == multiset(Averages(groups))
    requires 0 <= k < |r|
    ensures RatesFor(rows, r[k].step_number) != []
    ensures r[k].completion_rate == RoundCents(Mean(RatesFor(rows, r[k].step_number)))
  {
    var avgs := Averages(groups);
    assert r[k] in multiset(avgs);
    var j :| 0 <= j < |avgs| && avgs[j] == r[k];
  }

  /** A step number has an entry exactly when it occurs in the rows. */
  lemma SummaryCovers(groups: seq<Group>, rows: seq<PerfRow>, r: seq<StepPerformance>, n: int)
    requires Grouped(groups, rows)
    requires forall j :: 0 <= j < |groups| ==> groups[j].rates != []
    requires multiset(r) == multiset(Averages(groups))
    ensures (exists k :: 0 <= k < |r| && r[k].step_number == n) <==> n in NumbersOf(rows)
  {
    var avgs := Averages(groups);
    RatesForOccurs(rows, n);
    if exists k :: 0 <= k < |r| && r[k].step_number == n {
      var k :| 0 <= k < |r| && r[k].step_number == n;
      assert r[k] in multiset(avgs);
      var j :| 0 <= j < |avgs| && avgs[j] == r[k];
      assert KeysOf(groups)[j] == n;
    }
    if n in NumbersOf(rows) {
      assert n in KeysOf(groups);
      var j :| 0 <= j < |groups| && KeysOf(groups)[j] == n;
      assert avgs[j] in multiset(r);
      var k :| 0 <= k < |r| && r[k] == avgs[j];
      assert r[k].step_number == n;
    }
  }

  /** The rounded average stays within half a hundredth of the range of
      the rates it averages. */
  lemma AverageInRange(rows: seq<PerfRow>, n: int, lo: real, hi: real)
    requires RatesFor(rows, n) != []
    requires forall i :: 0 <= i < |rows| ==> lo <= rows[i].completion_rate <= hi
    ensures lo - 0.005 < RoundCents(Mean(RatesFor(rows, n))) <= hi + 0.005
  {
    RatesForBounded(rows, n, lo, hi);
    MeanBounded(RatesFor(rows, n), lo, hi);
  }

  lemma {:induction false} RatesForBounded(rows: seq<PerfRow>, n: int, lo: real, hi: real)
    requires forall i :: 0 <= i < |rows| ==> lo <= rows[i].completion_rate <= hi
    ensures forall i :: 0 <= i < |RatesFor(rows, n)| ==> lo <= RatesFor(rows, n)[i] <= hi
  {
    if rows != [] {
      RatesForBounded(rows[..|rows| - 1], n, lo, hi);
    }
  }
}
