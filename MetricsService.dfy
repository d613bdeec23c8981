/** The server's metrics service: recording events into the three metrics
    tables, reading the statistics views, and deleting old rows. The tables
    are held in memory; a failing query is a parameter. The statistics views
    are defined in a schema file that is not part of this model, so their
    rows are given as inputs. */
module MetricsService {
  import opened Wrappers
  import opened Seqs
  import opened Decimal
  import opened Accounts
  import opened MetricsSchema
  import CalculationController

  /** The start of the hour `at` falls in (`setMinutes(0, 0, 0)`). */
  function HourOf(at: int): (h: int)
    ensures h <= at < h + HourMs
    ensures h % HourMs == 0
  {
    at - at % HourMs
  }

  /** Every bucket's total is the sum of its authenticated and guest counts. */
  predicate Balanced(row: CalculationMetric)
  {
    row.total == row.authenticated + row.guest
  }

  /** The hour bucket a counter row belongs to (the key of the table's unique index). */
  function BucketOf(row: CalculationMetric): int
  {
    HourOf(row.recordedAt)
  }

  /** The counter table's invariant: one row per hour bucket, each balanced. */
  ghost predicate CountersValid(rows: seq<CalculationMetric>)
  {
    && KeysDistinct(rows, BucketOf)
    && forall x :: x in rows ==> Balanced(x)
  }

  /** The upsert of `recordCalculation` at time `now`: the first event of its
      hour inserts (1, a, g) stamped with the start of the hour; later ones add
      1, a and g to the row of that hour. */
  function Upsert(rows: seq<CalculationMetric>, now: int, a: nat, g: nat): (r: seq<CalculationMetric>)
    ensures forall x :: x in r ==> x in rows || BucketOf(x) == HourOf(now)
    ensures forall x :: x in rows && BucketOf(x) != HourOf(now) ==> x in r
    ensures exists x :: x in r && BucketOf(x) == HourOf(now)
  {
    var hour := HourOf(now);
    if rows == [] then
      var first := CalculationMetric(hour, 1, a, g);
      assert BucketOf(first) == hour;
      [first]
    else if BucketOf(rows[0]) == hour then
      var x := rows[0];
      var bumped := CalculationMetric(x.recordedAt, x.total + 1, x.authenticated + a, x.guest + g);
      assert BucketOf(bumped) == hour;
      var r := [bumped] + rows[1..];
      assert r[0] == bumped;
      r
    else
      var rest := Upsert(rows[1..], now, a, g);
      var r := [rows[0]] + rest;
      assert forall y :: y in rest ==> y in r;
      r
  }

  /** Each recorded event counts once in the totals, and once in the
      authenticated or the guest column as its `a` and `g` say. */
  lemma {:induction false} UpsertCountsOnce(rows: seq<CalculationMetric>, now: int, a: nat, g: nat)
    ensures var r := Upsert(rows, now, a, g);
            && ColumnSum(r, TotalOf) == ColumnSum(rows, TotalOf) + 1
            && ColumnSum(r, AuthenticatedOf) == ColumnSum(rows, AuthenticatedOf) + a
            && ColumnSum(r, GuestOf) == ColumnSum(rows, GuestOf) + g
  {
    if rows != [] && BucketOf(rows[0]) != HourOf(now) {
      UpsertCountsOnce(rows[1..], now, a, g);
    }
  }

  /** The upsert keeps one row per bucket, each balanced, when it adds 1 = a + g. */
  lemma {:induction false} UpsertKeepsCountersValid(rows: seq<CalculationMetric>, now: int, a: nat, g: nat)
    requires CountersValid(rows) && a + g == 1
    ensures CountersValid(Upsert(rows, now, a, g))
  {
    if rows == [] {
    } else if BucketOf(rows[0]) == HourOf(now) {
      BumpKeepsCountersValid(rows, now, a, g);
    } else {
      var tail := rows[1..];
      TailKeepsCountersValid(rows);
      UpsertKeepsCountersValid(tail, now, a, g);
      var rest := Upsert(tail, now, a, g);
      forall y | y in rest ensures BucketOf(y) != BucketOf(rows[0]) {
        if y in tail {
          var k :| 0 <= k < |tail| && tail[k] == y;
          assert y == rows[k + 1];
        }
      }
      ConsKeepsCountersValid(rows[0], rest);
    }
  }

  lemma TailKeepsCountersValid(rows: seq<CalculationMetric>)
    requires CountersValid(rows) && rows != []
    ensures CountersValid(rows[1..])
  {
    var tail := rows[1..];
    forall i, j | 0 <= i < j < |tail| ensures BucketOf(tail[i]) != BucketOf(tail[j]) {
      assert tail[i] == rows[i + 1] && tail[j] == rows[j + 1];
    }
  }

  lemma ConsKeepsCountersValid(x: CalculationMetric, rest: seq<CalculationMetric>)
    requires CountersValid(rest) && Balanced(x)
    requires forall y :: y in rest ==> BucketOf(y) != BucketOf(x)
    ensures CountersValid([x] + rest)
  {
    var r := [x] + rest;
    forall i, j | 0 <= i < j < |r| ensures BucketOf(r[i]) != BucketOf(r[j]) {
      assert r[j] == rest[j - 1];
      if i == 0 {
        assert r[j] in rest;
      } else {
        assert r[i] == rest[i - 1];
      }
    }
  }

  /** Adding to the row of the current hour keeps the table valid. */
  lemma BumpKeepsCountersValid(rows: seq<CalculationMetric>, now: int, a: nat, g: nat)
    requires CountersValid(rows) && a + g == 1
    requires rows != [] && BucketOf(rows[0]) == HourOf(now)
    ensures CountersValid(Upsert(rows, now, a, g))
  {
    var r := Upsert(rows, now, a, g);
    assert Balanced(rows[0]);
    assert |r| == |rows| && r[1..] == rows[1..];
    assert BucketOf(r[0]) == BucketOf(rows[0]);
    forall i, j | 0 <= i < j < |r| ensures BucketOf(r[i]) != BucketOf(r[j]) {
      assert r[j] == rows[j];
      if i > 0 {
        assert r[i] == rows[i];
      }
    }
    forall x | x in r ensures Balanced(x) {
      if x != r[0] {
        var k :| 0 <= k < |r| && r[k] == x;
        assert x == rows[k];
      }
    }
  }

  /** An `active_users_last_hour` row. */
  datatype ActiveUsers = ActiveUsers(authenticatedUsers: int, guestSessions: int, totalSessions: int)

  /** The counters of one hour as the `calculation_statistics` view reports them. */
  datatype HourStats = HourStats(total: int, authenticated: int, guest: int)

  /** An `average_performance` row. */
  datatype PerformanceStat = PerformanceStat(hour: int, operationType: string, avgDuration: real)

  /** `getActiveUsers`: the view's first row, or all zeros when it has none;
      `None` when the query fails (the error is passed on). */
  function GetActiveUsers(view: Option<seq<ActiveUsers>>): (r: Option<ActiveUsers>)
    ensures r.Some? <==> view.Some?
    ensures view.Some? && view.value == [] ==> r == Some(ActiveUsers(0, 0, 0))
    ensures view.Some? && view.value != [] ==> r == Some(view.value[0])
  {
    match view
    case None => None
    case Some(rows) => Some(if rows != [] then rows[0] else ActiveUsers(0, 0, 0))
  }

  /** `LIMIT n`: at most the first `n` rows; a negative limit makes the query fail. */
  function Limit<T(!new)>(rows: seq<T>, n: int): (r: Option<seq<T>>)
    ensures r.Some? <==> n >= 0
    ensures r.Some? ==> r.value <= rows && |r.value| == if |rows| < n then |rows| else n
  {
    if n < 0 then None else Some(Take(rows, n))
  }

  /** `getCalculationStats(limit)`. */
  function GetCalculationStats(view: Option<seq<HourStats>>, limit: int): (r: Option<seq<HourStats>>)
    ensures r.Some? <==> view.Some? && limit >= 0
    ensures r.Some? ==> r.value <= view.value && |r.value| <= limit
    ensures r.Some? ==> r == Limit(view.value, limit)
  {
    if view.None? then None else Limit(view.value, limit)
  }

  /** A piece of SQL text: literal text or a numbered placeholder `$n`. */
  datatype Fragment = Text(text: string) | Placeholder(n: nat)

  /** A bound query parameter. */
  datatype Param = TextParam(s: string) | IntParam(i: int)

  function Render(query: seq<Fragment>): string
  {
    if query == [] then ""
    else
      (match query[0]
       case Text(t) => t
       case Placeholder(n) => "$" + NatToString(n))
      + Render(query[1..])
  }

  /** The placeholder numbers of a query, in the order they appear. */
  function Placeholders(query: seq<Fragment>): seq<nat>
  {
    if query == [] then []
    else (if query[0].Placeholder? then [query[0].n] else []) + Placeholders(query[1..])
  }

  lemma {:induction false} PlaceholdersAppend(a: seq<Fragment>, b: seq<Fragment>)
    ensures Placeholders(a + b) == Placeholders(a) + Placeholders(b)
  {
    if a == [] {
      assert a + b == b;
    } else {
      var head: seq<nat> := if a[0].Placeholder? then [a[0].n] else [];
      assert (a + b)[0] == a[0] && (a + b)[1..] == a[1..] + b;
      PlaceholdersAppend(a[1..], b);
      assert Placeholders(a + b) == head + (Placeholders(a[1..]) + Placeholders(b));
    }
  }

  lemma {:induction false} RenderAppend(a: seq<Fragment>, b: seq<Fragment>)
    ensures Render(a + b) == Render(a) + Render(b)
  {
    if a == [] {
      assert a + b == b;
    } else {
      assert (a + b)[1..] == a[1..] + b;
      RenderAppend(a[1..], b);
    }
  }

  const PerformanceSelect := "SELECT * FROM average_performance"
  const OperationFilter := " WHERE operation_type = "
  const NewestHoursLimit := " ORDER BY hour DESC LIMIT "

  /** `getPerformanceStats`' query builder: the operation filter only for a
      given, non-empty operation type, then the limit; the placeholders are
      numbered 1, 2, … in order and each one's parameter is in its place. */
  method BuildPerformanceQuery(operationType: Option<string>, limit: int) returns (query: seq<Fragment>, params: seq<Param>)
    ensures |params| >= 1 && Placeholders(query) == seq(|params|, i => i + 1)
    ensures params[|params| - 1] == IntParam(limit)
    ensures FiltersBy(operationType) ==>
              params == [TextParam(operationType.value), IntParam(limit)]
              && Render(query) == PerformanceSelect + OperationFilter + "$1" + NewestHoursLimit + "$2"
    ensures !FiltersBy(operationType) ==>
              params == [IntParam(limit)] && Render(query) == PerformanceSelect + NewestHoursLimit + "$1"
  {
    query := [Text(PerformanceSelect)];
    params := [];
    if operationType.Some? && operationType.value != "" {
      query := query + [Text(OperationFilter), Placeholder(1)];
      params := params + [TextParam(operationType.value)];
    }
    query := query + [Text(NewestHoursLimit), Placeholder(|params| + 1)];
    params := params + [IntParam(limit)];
    if FiltersBy(operationType) {
      assert query == FilteredQuery;
      FilteredQueryReads();
    } else {
      assert query == UnfilteredQuery;
      UnfilteredQueryReads();
    }
  }

  const FilteredQuery := [Text(PerformanceSelect), Text(OperationFilter), Placeholder(1), Text(NewestHoursLimit), Placeholder(2)]
  const UnfilteredQuery := [Text(PerformanceSelect), Text(NewestHoursLimit), Placeholder(1)]

  lemma FilteredQueryReads()
    ensures Placeholders(FilteredQuery) == [1, 2]
    ensures Render(FilteredQuery) == PerformanceSelect + OperationFilter + "$1" + NewestHoursLimit + "$2"
  {
    TextThenTwoPairs(PerformanceSelect, OperationFilter, NewestHoursLimit);
  }

  lemma UnfilteredQueryReads()
    ensures Placeholders(UnfilteredQuery) == [1]
    ensures Render(UnfilteredQuery) == PerformanceSelect + NewestHoursLimit + "$1"
  {
    TextThenPair(PerformanceSelect, NewestHoursLimit);
  }

  lemma TextThenTwoPairs(t0: string, t1: string, t2: string)
    ensures Placeholders([Text(t0), Text(t1), Placeholder(1), Text(t2), Placeholder(2)]) == [1, 2]
    ensures Render([Text(t0), Text(t1), Placeholder(1), Text(t2), Placeholder(2)]) == t0 + t1 + "$1" + t2 + "$2"
  {
    var q := [Text(t0), Text(t1), Placeholder(1), Text(t2), Placeholder(2)];
    TextOnly(t0);
    PlaceholdersOfPair(t1, 1);
    PlaceholdersOfPair(t2, 2);
    var front, middle, back := [q[0]], [q[1], q[2]], [q[3], q[4]];
    assert q == front + middle + back;
    PlaceholdersAppend(front + middle, back);
    PlaceholdersAppend(front, middle);
    RenderAppend(front + middle, back);
    RenderAppend(front, middle);
    DollarNumbers();
  }

  lemma TextThenPair(t0: string, t1: string)
    ensures Placeholders([Text(t0), Text(t1), Placeholder(1)]) == [1]
    ensures Render([Text(t0), Text(t1), Placeholder(1)]) == t0 + t1 + "$1"
  {
    var q := [Text(t0), Text(t1), Placeholder(1)];
    TextOnly(t0);
    PlaceholdersOfPair(t1, 1);
    var front, back := [q[0]], [q[1], q[2]];
    assert q == front + back;
    PlaceholdersAppend(front, back);
    RenderAppend(front, back);
    DollarNumbers();
  }

  lemma DollarNumbers()
    ensures "$" + NatToString(1) == "$1" && "$" + NatToString(2) == "$2"
  {
  }

  /** A text alone. */
  lemma TextOnly(text: string)
    ensures Placeholders([Text(text)]) == []
    ensures Render([Text(text)]) == text
  {
    var q := [Text(text)];
    assert q[1..] == [];
    assert Render(q) == text + Render([]);
  }

  /** A text followed by one placeholder. */
  lemma PlaceholdersOfPair(text: string, n: nat)
    ensures Placeholders([Text(text), Placeholder(n)]) == [n]
    ensures Render([Text(text), Placeholder(n)]) == text + "$" + NatToString(n)
  {
    var q := [Text(text), Placeholder(n)];
    var last := [Placeholder(n)];
    assert q[1..] == last && last[1..] == [];
    assert Placeholders(last) == [n] + Placeholders([]);
    assert Render(last) == "$" + NatToString(n) + Render([]);
    assert Render(q) == text + Render(last);
  }

  /** Whether `getPerformanceStats` filters by operation type: only for a given, non-empty one. */
  predicate FiltersBy(operationType: Option<string>)
  {
    operationType.Some? && operationType.value != ""
  }

  function LatestHourFirst(row: PerformanceStat): int
  {
    -row.hour
  }

  /** The rows of the view the filter lets through. */
  function OfType(view: seq<PerformanceStat>, operationType: Option<string>): (r: seq<PerformanceStat>)
    ensures forall x :: x in r <==> x in view && (FiltersBy(operationType) ==> x.operationType == operationType.value)
  {
    if FiltersBy(operationType) then Filter(view, (x: PerformanceStat) => x.operationType == operationType.value)
    else view
  }

  /** `getPerformanceStats(operationType, limit)`: the hourly averages of the
      requested type (all types without a filter), latest hour first, at most
      `limit` of them; `None` when the query fails. */
  function GetPerformanceStats(view: Option<seq<PerformanceStat>>, operationType: Option<string>, limit: int): (r: Option<seq<PerformanceStat>>)
    ensures r.Some? <==> view.Some? && limit >= 0
    ensures r.Some? ==>
              && |r.value| == (if |OfType(view.value, operationType)| < limit then |OfType(view.value, operationType)| else limit)
              && (forall x :: x in r.value ==> x in view.value && (FiltersBy(operationType) ==> x.operationType == operationType.value))
              && (forall i, j :: 0 <= i < j < |r.value| ==> r.value[i].hour >= r.value[j].hour)
    ensures r.Some? ==> multiset(r.value) <= multiset(OfType(view.value, operationType))
  {
    if view.None? || limit < 0 then None
    else
      var sorted := SortBy(OfType(view.value, operationType), LatestHourFirst);
      var r := Take(sorted, limit);
      assert forall i :: 0 <= i < |r| ==> r[i] == sorted[i];
      assert sorted == r + sorted[|r|..];
      Some(r)
  }

  /** No row of the requested type left out is later than one returned. */
  lemma PerformanceStatsKeepLatest(view: seq<PerformanceStat>, operationType: Option<string>, limit: nat, x: PerformanceStat)
    requires x in view && (FiltersBy(operationType) ==> x.operationType == operationType.value)
    ensures var r := GetPerformanceStats(Some(view), operationType, limit).value;
            forall j :: 0 <= j < |r| && x.hour > r[j].hour ==> x in r
  {
    var sorted := SortBy(OfType(view, operationType), LatestHourFirst);
    var r := GetPerformanceStats(Some(view), operationType, limit).value;
    assert x in sorted;
    forall j | 0 <= j < |r| && x.hour > r[j].hour ensures x in r {
      TakeSortedKeepsSmallerKeys(sorted, LatestHourFirst, limit, x, j);
    }
  }

  /** The calculation counts of the summary, as `parseInt` reads Postgres's counts. */
  datatype CalculationCounts = CalculationCounts(total: Option<int>, authenticated: Option<int>, guest: Option<int>, lastHour: HourStats)

  datatype MetricsSummary = MetricsSummary(activeUsers: ActiveUsers, calculations: CalculationCounts, performance: seq<PerformanceStat>)

  predicate IsOwned(row: CalculationController.Row)
  {
    row.userId.Some?
  }

  predicate IsGuestRow(row: CalculationController.Row)
  {
    row.userId.None?
  }

  /** `getMetricsSummary`: the active users, the last hour's counters (zeros when
      there are none), the latest hourly performance average, and the counts of saved
      calculations; `None` when any of the queries fails. */
  function GetMetricsSummary(
    activeUsersView: Option<seq<ActiveUsers>>,
    calculationStatsView: Option<seq<HourStats>>,
    performanceView: Option<seq<PerformanceStat>>,
    calculations: Option<seq<CalculationController.Row>>): (r: Option<MetricsSummary>)
    ensures r.Some? <==> activeUsersView.Some? && calculationStatsView.Some? && performanceView.Some? && calculations.Some?
    ensures r.Some? ==>
              && r.value.activeUsers == GetActiveUsers(activeUsersView).value
              && r.value.calculations.lastHour ==
                   (if calculationStatsView.value == [] then HourStats(0, 0, 0) else calculationStatsView.value[0])
              && r.value.calculations.total == Some(|calculations.value|)
              && r.value.calculations.authenticated == Some(|Filter(calculations.value, IsOwned)|)
              && r.value.calculations.guest == Some(|Filter(calculations.value, IsGuestRow)|)
              && r.value.performance == GetPerformanceStats(performanceView, None, 1).value
  {
    if activeUsersView.None? || calculationStatsView.None? || performanceView.None? || calculations.None? then None
    else
      var stats := GetCalculationStats(calculationStatsView, 1).value;
      var rows := calculations.value;
      var total, owned, guests := |rows|, |Filter(rows, IsOwned)|, |Filter(rows, IsGuestRow)|;
      ParseIntRoundTrip(total, "");
      ParseIntRoundTrip(owned, "");
      ParseIntRoundTrip(guests, "");
      assert IntToString(total) + "" == IntToString(total);
      assert IntToString(owned) + "" == IntToString(owned);
      assert IntToString(guests) + "" == IntToString(guests);
      var lastHour := if stats != [] then stats[0] else HourStats(0, 0, 0);
      Some(MetricsSummary(
        GetActiveUsers(activeUsersView).value,
        CalculationCounts(ParseInt(IntToString(total)), ParseInt(IntToString(owned)), ParseInt(IntToString(guests)), lastHour),
        GetPerformanceStats(performanceView, None, 1).value))
  }

  /** The summary's total is the sum of its authenticated and guest counts. */
  lemma SummaryTotalIsSum(
    activeUsersView: Option<seq<ActiveUsers>>,
    calculationStatsView: Option<seq<HourStats>>,
    performanceView: Option<seq<PerformanceStat>>,
    calculations: Option<seq<CalculationController.Row>>)
    requires GetMetricsSummary(activeUsersView, calculationStatsView, performanceView, calculations).Some?
    ensures var c := GetMetricsSummary(activeUsersView, calculationStatsView, performanceView, calculations).value.calculations;
            c.total.value == c.authenticated.value + c.guest.value
  {
    FilterPartition(calculations.value, IsOwned, IsGuestRow);
  }

  /** The steps of `cleanOldMetrics`, in the order they run. */
  datatype CleanStep = PerformanceStep | ActivityStep | CounterStep

  function StepIndex(s: CleanStep): nat
  {
    match s
    case PerformanceStep => 0
    case ActivityStep => 1
    case CounterStep => 2
  }

  /** Whether `step` ran to completion when the pass failed at `failedAt`, if at all. */
  predicate Done(step: CleanStep, failedAt: Option<CleanStep>)
  {
    failedAt.None? || StepIndex(step) < StepIndex(failedAt.value)
  }

  /** The contents of the three metrics tables. */
  datatype Tables = Tables(counters: seq<CalculationMetric>, performance: seq<PerformanceMetric>, activity: seq<UserActivity>)

  /** The tables after a cleanup with cutoff `cutoff` that failed at `failedAt`, if at all. */
  function Cleaned(t: Tables, cutoff: int, failedAt: Option<CleanStep>): Tables
  {
    Tables(
      if Done(CounterStep, failedAt) then Since(t.counters, CalculationAt, cutoff) else t.counters,
      if Done(PerformanceStep, failedAt) then Since(t.performance, PerformanceAt, cutoff) else t.performance,
      if Done(ActivityStep, failedAt) then Since(t.activity, ActivityAt, cutoff) else t.activity)
  }

  /** A complete cleanup keeps exactly the rows recorded at the cutoff or later,
      in every table, and keeps the counter table valid. */
  lemma CleanupKeepsExactlyRecentRows(t: Tables, cutoff: int)
    requires CountersValid(t.counters)
    ensures var c := Cleaned(t, cutoff, None);
            && (forall x :: x in c.counters <==> x in t.counters && x.recordedAt >= cutoff)
            && (forall x :: x in c.performance <==> x in t.performance && x.recordedAt >= cutoff)
            && (forall x :: x in c.activity <==> x in t.activity && x.recordedAt >= cutoff)
            && CountersValid(c.counters)
  {
    SinceKeepsKeysDistinct(t.counters, CalculationAt, cutoff, BucketOf);
  }

  /** A failed cleanup leaves the tables of the steps it did not reach as they were. */
  lemma FailedCleanupStopsAtStep(t: Tables, cutoff: int, step: CleanStep)
    ensures var c := Cleaned(t, cutoff, Some(step));
            && c.counters == t.counters
            && (step == PerformanceStep ==> c == t)
            && (step == CounterStep ==> c.performance == Since(t.performance, PerformanceAt, cutoff)
                                        && c.activity == Since(t.activity, ActivityAt, cutoff))
  {
  }

  /** The three metrics tables. */
  class MetricsStore {
    var counters: seq<CalculationMetric>
    var performance: seq<PerformanceMetric>
    var activity: seq<UserActivity>

    ghost predicate Valid()
      reads this
    {
      CountersValid(counters)
    }

    function Contents(): Tables
      reads this
    {
      Tables(counters, performance, activity)
    }

    constructor ()
      ensures Valid() && counters == [] && performance == [] && activity == []
    {
      counters := [];
      performance := [];
      activity := [];
    }

    /** `recordCalculation`: counts the event in the current hour's bucket. A
        failing query changes nothing and is not reported. */
    method RecordCalculation(isAuthenticated: bool, now: int, dbOk: bool)
      requires Valid()
      modifies this
      ensures Valid()
      ensures dbOk ==> counters == Upsert(old(counters), now, if isAuthenticated then 1 else 0, if isAuthenticated then 0 else 1)
      ensures !dbOk ==> counters == old(counters)
      ensures performance == old(performance) && activity == old(activity)
    {
      var a: nat := if isAuthenticated then 1 else 0;
      var g: nat := if isAuthenticated then 0 else 1;
      if dbOk {
        UpsertKeepsCountersValid(counters, now, a, g);
        counters := Upsert(counters, now, a, g);
      }
    }

    /** `recordPerformance`: appends one row; a failing insert changes nothing and is not reported. */
    method RecordPerformance(userId: Option<UserId>, operationType: string, durationMs: int, now: int, dbOk: bool)
      requires Valid()
      modifies this
      ensures Valid()
      ensures performance == if dbOk then old(performance) + [PerformanceMetric(userId, operationType, durationMs, now)] else old(performance)
      ensures counters == old(counters) && activity == old(activity)
    {
      if dbOk {
        performance := performance + [PerformanceMetric(userId, operationType, durationMs, now)];
      }
    }

    /** `recordActivity`: appends one row; a failing insert changes nothing and is not reported. */
    method RecordActivity(userId: Option<UserId>, activityType: string, isGuest: bool, now: int, dbOk: bool)
      requires Valid()
      modifies this
      ensures Valid()
      ensures activity == if dbOk then old(activity) + [UserActivity(userId, activityType, isGuest, now)] else old(activity)
      ensures counters == old(counters) && performance == old(performance)
    {
      if dbOk {
        activity := activity + [UserActivity(userId, activityType, isGuest, now)];
      }
    }

    /** `cleanOldMetrics`: deletes the rows recorded before `daysToKeep` days
        ago from the performance, activity and counter tables, in that order.
        A failing delete stops the pass: the deletes before it stay done, and
        the error is passed on (`ok` is false). */
    method CleanOldMetrics(daysToKeep: int, now: int, failedAt: Option<CleanStep>) returns (ok: bool)
      requires Valid()
      modifies this
      ensures Valid()
      ensures ok <==> failedAt.None?
      ensures Contents() == Cleaned(old(Contents()), now - daysToKeep * DayMs, failedAt)
    {
      var cutoff := now - daysToKeep * DayMs;
      if failedAt == Some(PerformanceStep) {
        return false;
      }
      performance := Since(performance, PerformanceAt, cutoff);
      if failedAt == Some(ActivityStep) {
        return false;
      }
      activity := Since(activity, ActivityAt, cutoff);
      if failedAt.Some? {
        // The counter delete is the last step: this is its failure.
        return false;
      }
      SinceKeepsKeysDistinct(counters, CalculationAt, cutoff, BucketOf);
      counters := Since(counters, CalculationAt, cutoff);
      ok := true;
    }
  }
}
