/** The monitoring service's collection pass: it reads the last 24 hours of
    the three metrics tables and writes the results into three labelled
    gauges. A gauge keeps the last value written for each label; labels the
    pass does not write keep their values. */
module Aggregator {
  import opened Wrappers
  import opened Seqs
  import opened MetricsSchema
  import opened Queries

  /** The three gauges. */
  datatype Gauge = CalculationsTotal | OperationAvgDuration | UserActivityTotal

  function GaugeName(g: Gauge): string
  {
    match g
    case CalculationsTotal => "calculator_calculations_total"
    case OperationAvgDuration => "calculator_operation_avg_duration_ms"
    case UserActivityTotal => "calculator_user_activity_total"
  }

  /** The name of the one label each gauge is keyed by. */
  function LabelName(g: Gauge): string
  {
    match g
    case CalculationsTotal => "user_type"
    case OperationAvgDuration => "operation_type"
    case UserActivityTotal => "activity_type"
  }

  const Authenticated := "authenticated"
  const Guest := "guest"

  /** The window the pass reads. */
  const WindowMs := 24 * HourMs

  /** Gauge values by gauge and label. */
  type Gauges = map<(Gauge, string), real>

  /** Writing `valueOf(x)` under `labelOf(x)` for each row `x` in turn. */
  function SetEach<R>(gauges: Gauges, g: Gauge, rows: seq<R>, labelOf: R -> string, valueOf: R -> real): Gauges
    decreases |rows|
  {
    if rows == [] then gauges
    else
      var last := rows[|rows| - 1];
      SetEach(gauges, g, rows[..|rows| - 1], labelOf, valueOf)[(g, labelOf(last)) := valueOf(last)]
  }

  /** Labels no row carries, and the other gauges, keep their values. */
  lemma {:induction false} SetEachKeepsOthers<R>(gauges: Gauges, g: Gauge, rows: seq<R>, labelOf: R -> string, valueOf: R -> real, key: (Gauge, string))
    requires key.0 != g || forall x :: x in rows ==> labelOf(x) != key.1
    ensures key in SetEach(gauges, g, rows, labelOf, valueOf) <==> key in gauges
    ensures key in gauges ==> SetEach(gauges, g, rows, labelOf, valueOf)[key] == gauges[key]
    decreases |rows|
  {
    if rows != [] {
      var front := rows[..|rows| - 1];
      assert forall x :: x in front ==> x in rows;
      SetEachKeepsOthers(gauges, g, front, labelOf, valueOf, key);
    }
  }

  /** A label is set to the value of the last row that carries it. */
  lemma {:induction false} SetEachLastWins<R>(gauges: Gauges, g: Gauge, rows: seq<R>, labelOf: R -> string, valueOf: R -> real, i: nat)
    requires i < |rows|
    requires forall j :: i < j < |rows| ==> labelOf(rows[j]) != labelOf(rows[i])
    ensures (g, labelOf(rows[i])) in SetEach(gauges, g, rows, labelOf, valueOf)
    ensures SetEach(gauges, g, rows, labelOf, valueOf)[(g, labelOf(rows[i]))] == valueOf(rows[i])
    decreases |rows|
  {
    if i < |rows| - 1 {
      var front := rows[..|rows| - 1];
      assert front[i] == rows[i];
      SetEachLastWins(gauges, g, front, labelOf, valueOf, i);
    }
  }

  /** Setting the labels one row more. */
  lemma SetEachSnoc<R>(gauges: Gauges, g: Gauge, rows: seq<R>, i: nat, labelOf: R -> string, valueOf: R -> real)
    requires i < |rows|
    ensures SetEach(gauges, g, rows[..i + 1], labelOf, valueOf) == SetEach(gauges, g, rows[..i], labelOf, valueOf)[(g, labelOf(rows[i])) := valueOf(rows[i])]
  {
    assert rows[..i + 1][..i] == rows[..i];
  }

  function OperationLabel(row: OperationAverage): string { row.operationType }
  function OperationValue(row: OperationAverage): real { row.avgDuration }
  function ActivityLabel(row: ActivityTotal): string { row.activityType }
  function ActivityValue(row: ActivityTotal): real { row.count as real }

  /** The fetch a pass can fail at. */
  datatype Fetch = CalculationFetch | DurationFetch | ActivityFetch

  /** The gauges after the calculation step: both user types set to the sums over the rows. */
  function AfterCalculations(gauges: Gauges, rows: seq<CalculationMetric>): Gauges
  {
    gauges[(CalculationsTotal, Authenticated) := ColumnSum(rows, AuthenticatedOf) as real]
          [(CalculationsTotal, Guest) := ColumnSum(rows, GuestOf) as real]
  }

  function AfterDurations(gauges: Gauges, rows: seq<OperationAverage>): Gauges
  {
    SetEach(gauges, OperationAvgDuration, rows, OperationLabel, OperationValue)
  }

  function AfterActivity(gauges: Gauges, rows: seq<ActivityTotal>): Gauges
  {
    SetEach(gauges, UserActivityTotal, rows, ActivityLabel, ActivityValue)
  }

  /** The three steps over fetched rows: those before the failing fetch are
      done, the ones from it on are not. */
  function Steps(gauges: Gauges, calculations: seq<CalculationMetric>, durations: seq<OperationAverage>,
                 counts: seq<ActivityTotal>, failedAt: Option<Fetch>): Gauges
  {
    match failedAt
    case Some(CalculationFetch) => gauges
    case Some(DurationFetch) => AfterCalculations(gauges, calculations)
    case Some(ActivityFetch) => AfterDurations(AfterCalculations(gauges, calculations), durations)
    case None => AfterActivity(AfterDurations(AfterCalculations(gauges, calculations), durations), counts)
  }

  /** What one pass leaves in the gauges, given the tables, the time and the
      fetch that fails, if any. All three fetches read from the same bound. */
  function Collected(gauges: Gauges, counters: seq<CalculationMetric>, performance: seq<PerformanceMetric>,
                     activity: seq<UserActivity>, now: int, failedAt: Option<Fetch>): Gauges
  {
    var since := now - WindowMs;
    Steps(gauges, CalculationMetricsLastHours(counters, since), AvgOperationDuration(performance, since),
          ActivityCount(activity, since), failedAt)
  }

  /** The gauges of the running service. */
  class Registry {
    var gauges: Gauges

    constructor ()
      ensures gauges == map[]
    {
      gauges := map[];
    }

    /** `collect_metrics`: one pass over the last 24 hours before `now`. A
        failing fetch ends the pass with an error (`ok` false). */
    method CollectMetrics(counters: seq<CalculationMetric>, performance: seq<PerformanceMetric>,
                          activity: seq<UserActivity>, now: int, failedAt: Option<Fetch>) returns (ok: bool)
      modifies this
      ensures ok <==> failedAt.None?
      ensures gauges == Collected(old(gauges), counters, performance, activity, now, failedAt)
    {
      var since := now - WindowMs;
      if failedAt == Some(CalculationFetch) {
        return false;
      }
      SetCalculationTotals(CalculationMetricsLastHours(counters, since));
      if failedAt == Some(DurationFetch) {
        return false;
      }
      SetDurations(AvgOperationDuration(performance, since));
      if failedAt.Some? {
        // The activity fetch is the last one: this is its failure.
        return false;
      }
      SetActivityCounts(ActivityCount(activity, since));
      ok := true;
    }

    /** Sums the authenticated and the guest counters of the rows and sets the two user types. */
    method SetCalculationTotals(rows: seq<CalculationMetric>)
      modifies this
      ensures gauges == AfterCalculations(old(gauges), rows)
    {
      var totalAuth := 0;
      var totalGuest := 0;
      var i := 0;
      while i < |rows|
        invariant 0 <= i <= |rows|
        invariant totalAuth == ColumnSum(rows[..i], AuthenticatedOf)
        invariant totalGuest == ColumnSum(rows[..i], GuestOf)
        invariant gauges == old(gauges)
      {
        assert rows[..i + 1] == rows[..i] + [rows[i]];
        ColumnSumAppend(rows[..i], [rows[i]], AuthenticatedOf);
        ColumnSumAppend(rows[..i], [rows[i]], GuestOf);
        totalAuth := totalAuth + rows[i].authenticated;
        totalGuest := totalGuest + rows[i].guest;
        i := i + 1;
      }
      assert rows[..|rows|] == rows;
      assert totalAuth == ColumnSum(rows, AuthenticatedOf) && totalGuest == ColumnSum(rows, GuestOf);
      gauges := gauges[(CalculationsTotal, Authenticated) := totalAuth as real];
      gauges := gauges[(CalculationsTotal, Guest) := totalGuest as real];
    }

    /** Sets each row's operation type to its average duration. */
    method SetDurations(rows: seq<OperationAverage>)
      modifies this
      ensures gauges == AfterDurations(old(gauges), rows)
    {
      var i := 0;
      while i < |rows|
        invariant 0 <= i <= |rows|
        invariant gauges == SetEach(old(gauges), OperationAvgDuration, rows[..i], OperationLabel, OperationValue)
      {
        SetEachSnoc(old(gauges), OperationAvgDuration, rows, i, OperationLabel, OperationValue);
        gauges := gauges[(OperationAvgDuration, rows[i].operationType) := rows[i].avgDuration];
        i := i + 1;
      }
      assert rows[..|rows|] == rows;
    }

    /** Sets each row's activity type to its count. */
    method SetActivityCounts(rows: seq<ActivityTotal>)
      modifies this
      ensures gauges == AfterActivity(old(gauges), rows)
    {
      var i := 0;
      while i < |rows|
        invariant 0 <= i <= |rows|
        invariant gauges == SetEach(old(gauges), UserActivityTotal, rows[..i], ActivityLabel, ActivityValue)
      {
        SetEachSnoc(old(gauges), UserActivityTotal, rows, i, ActivityLabel, ActivityValue);
        gauges := gauges[(UserActivityTotal, rows[i].activityType) := rows[i].count as real];
        i := i + 1;
      }
      assert rows[..|rows|] == rows;
    }
  }

  /** The later steps leave the two user-type labels alone. */
  lemma TotalsSurviveLaterSteps(gauges: Gauges, calculations: seq<CalculationMetric>, durations: seq<OperationAverage>,
                                counts: seq<ActivityTotal>, failedAt: Option<Fetch>, userType: string)
    requires failedAt != Some(CalculationFetch) && (userType == Authenticated || userType == Guest)
    ensures var key := (CalculationsTotal, userType);
            var r := Steps(gauges, calculations, durations, counts, failedAt);
            key in r && r[key] == AfterCalculations(gauges, calculations)[key]
  {
    var key := (CalculationsTotal, userType);
    var g1 := AfterCalculations(gauges, calculations);
    SetEachKeepsOthers(g1, OperationAvgDuration, durations, OperationLabel, OperationValue, key);
    SetEachKeepsOthers(AfterDurations(g1, durations), UserActivityTotal, counts, ActivityLabel, ActivityValue, key);
  }

  /** After a pass that got past the first fetch, the two user-type labels hold
      the sums of the authenticated and the guest counters recorded in the
      24 hours before `now`, the bound included; 0 when there are none. */
  lemma CalculationTotalsOfWindow(gauges: Gauges, counters: seq<CalculationMetric>, performance: seq<PerformanceMetric>,
                                  activity: seq<UserActivity>, now: int, failedAt: Option<Fetch>)
    requires failedAt != Some(CalculationFetch)
    ensures var r := Collected(gauges, counters, performance, activity, now, failedAt);
            var window := Since(counters, CalculationAt, now - WindowMs);
            && (CalculationsTotal, Authenticated) in r && r[(CalculationsTotal, Authenticated)] == ColumnSum(window, AuthenticatedOf) as real
            && (CalculationsTotal, Guest) in r && r[(CalculationsTotal, Guest)] == ColumnSum(window, GuestOf) as real
            && (window == [] ==> r[(CalculationsTotal, Authenticated)] == 0.0 && r[(CalculationsTotal, Guest)] == 0.0)
  {
    var since := now - WindowMs;
    var rows := CalculationMetricsLastHours(counters, since);
    var window := Since(counters, CalculationAt, since);
    ColumnSumPermutation(rows, window, AuthenticatedOf);
    ColumnSumPermutation(rows, window, GuestOf);
    var durations := AvgOperationDuration(performance, since);
    var counts := ActivityCount(activity, since);
    TotalsSurviveLaterSteps(gauges, rows, durations, counts, failedAt, Authenticated);
    TotalsSurviveLaterSteps(gauges, rows, durations, counts, failedAt, Guest);
  }

  /** In a whole pass a label of the duration gauge is set by the duration rows alone. */
  lemma DurationLabelOfSteps(gauges: Gauges, calculations: seq<CalculationMetric>, durations: seq<OperationAverage>,
                             counts: seq<ActivityTotal>, t: string)
    ensures var key := (OperationAvgDuration, t);
            var g1 := AfterCalculations(gauges, calculations);
            var r := Steps(gauges, calculations, durations, counts, None);
            && (key in r <==> key in AfterDurations(g1, durations))
            && (key in r ==> r[key] == AfterDurations(g1, durations)[key])
            && (key in g1 <==> key in gauges)
            && (key in gauges ==> g1[key] == gauges[key])
  {
    var key := (OperationAvgDuration, t);
    var g1 := AfterCalculations(gauges, calculations);
    SetEachKeepsOthers(AfterDurations(g1, durations), UserActivityTotal, counts, ActivityLabel, ActivityValue, key);
  }

  /** After a whole pass, each operation type seen in the window holds the mean
      duration of its rows there; any other operation label keeps its value. */
  lemma DurationsOfWindow(gauges: Gauges, counters: seq<CalculationMetric>, performance: seq<PerformanceMetric>,
                          activity: seq<UserActivity>, now: int, t: string)
    ensures var r := Collected(gauges, counters, performance, activity, now, None);
            var window := Since(performance, PerformanceAt, now - WindowMs);
            && (t in OperationTypes(window) ==> (OperationAvgDuration, t) in r && IsMean(r[(OperationAvgDuration, t)], window, t))
            && (t !in OperationTypes(window) ==>
                  ((OperationAvgDuration, t) in r <==> (OperationAvgDuration, t) in gauges)
                  && ((OperationAvgDuration, t) in gauges ==> r[(OperationAvgDuration, t)] == gauges[(OperationAvgDuration, t)]))
  {
    var since := now - WindowMs;
    var window := Since(performance, PerformanceAt, since);
    var rows := CalculationMetricsLastHours(counters, since);
    var g1 := AfterCalculations(gauges, rows);
    var durations := AvgOperationDuration(performance, since);
    var key := (OperationAvgDuration, t);
    DurationLabelOfSteps(gauges, rows, durations, ActivityCount(activity, since), t);
    if t in OperationTypes(window) {
      var i :| 0 <= i < |durations| && durations[i].operationType == t;
      SetEachLastWins(g1, OperationAvgDuration, durations, OperationLabel, OperationValue, i);
    } else {
      SetEachKeepsOthers(g1, OperationAvgDuration, durations, OperationLabel, OperationValue, key);
    }
  }

  /** In a whole pass a label of the activity gauge is set by the activity rows alone. */
  lemma ActivityLabelOfSteps(gauges: Gauges, calculations: seq<CalculationMetric>, durations: seq<OperationAverage>,
                             counts: seq<ActivityTotal>, t: string)
    ensures var key := (UserActivityTotal, t);
            var g2 := AfterDurations(AfterCalculations(gauges, calculations), durations);
            && Steps(gauges, calculations, durations, counts, None) == AfterActivity(g2, counts)
            && (key in g2 <==> key in gauges)
            && (key in gauges ==> g2[key] == gauges[key])
  {
    var key := (UserActivityTotal, t);
    SetEachKeepsOthers(AfterCalculations(gauges, calculations), OperationAvgDuration, durations, OperationLabel, OperationValue, key);
  }

  /** After a whole pass, each activity type seen in the window holds the number
      of its rows there; any other activity label keeps its value. */
  lemma ActivityOfWindow(gauges: Gauges, counters: seq<CalculationMetric>, performance: seq<PerformanceMetric>,
                         activity: seq<UserActivity>, now: int, t: string)
    ensures var r := Collected(gauges, counters, performance, activity, now, None);
            var types := ActivityTypes(Since(activity, ActivityAt, now - WindowMs));
            && (t in types ==> (UserActivityTotal, t) in r && r[(UserActivityTotal, t)] == Count(types, t) as real)
            && (t !in types ==>
                  ((UserActivityTotal, t) in r <==> (UserActivityTotal, t) in gauges)
                  && ((UserActivityTotal, t) in gauges ==> r[(UserActivityTotal, t)] == gauges[(UserActivityTotal, t)]))
  {
    var since := now - WindowMs;
    var rows := CalculationMetricsLastHours(counters, since);
    var durations := AvgOperationDuration(performance, since);
    var g2 := AfterDurations(AfterCalculations(gauges, rows), durations);
    var counts := ActivityCount(activity, since);
    var key := (UserActivityTotal, t);
    ActivityLabelOfSteps(gauges, rows, durations, counts, t);
    if t in ActivityTypes(Since(activity, ActivityAt, since)) {
      var i :| 0 <= i < |counts| && counts[i].activityType == t;
      SetEachLastWins(g2, UserActivityTotal, counts, ActivityLabel, ActivityValue, i);
    } else {
      SetEachKeepsOthers(g2, UserActivityTotal, counts, ActivityLabel, ActivityValue, key);
    }
  }

  /** A pass that fails at its first fetch changes no gauge; one that fails at
      the second has set the two user types and nothing else; one that fails
      at the third has done what a pass over an empty activity table does. */
  lemma FailedPassKeepsEarlierSteps(gauges: Gauges, counters: seq<CalculationMetric>, performance: seq<PerformanceMetric>,
                                    activity: seq<UserActivity>, now: int)
    ensures Collected(gauges, counters, performance, activity, now, Some(CalculationFetch)) == gauges
    ensures var r := Collected(gauges, counters, performance, activity, now, Some(DurationFetch));
            forall key: (Gauge, string) :: key.0 != CalculationsTotal ==> (key in r <==> key in gauges) && (key in gauges ==> r[key] == gauges[key])
    ensures Collected(gauges, counters, performance, activity, now, Some(ActivityFetch))
            == Collected(gauges, counters, performance, [], now, None)
  {
    var since := now - WindowMs;
    assert ActivityCount([], since) == [] by {
      assert Since([], ActivityAt, since) == [];
      assert ActivityTypes([]) == [];
    }
  }
}
