/** The monitoring service's three queries, as functions of the tables they
    read and the lower time bound they are given. */
module Queries {
  import opened Seqs
  import opened MetricsSchema

  /** `CALCULATION_METRICS_LAST_HOURS`: the hourly counters recorded at `since`
      or later, oldest first. */
  function CalculationMetricsLastHours(rows: seq<CalculationMetric>, since: int): (r: seq<CalculationMetric>)
    ensures forall x :: x in r <==> x in rows && x.recordedAt >= since
    ensures multiset(r) == multiset(Since(rows, CalculationAt, since))
    ensures forall i, j :: 0 <= i < j < |r| ==> r[i].recordedAt <= r[j].recordedAt
  {
    var r := SortBy(Since(rows, CalculationAt, since), CalculationAt);
    assert SortedBy(r, CalculationAt);
    r
  }

  /** The activity types of `rows`, row by row. */
  function ActivityTypes(rows: seq<UserActivity>): (types: seq<string>)
    ensures |types| == |rows|
    ensures forall i :: 0 <= i < |rows| ==> types[i] == rows[i].activityType
  {
    seq(|rows|, i requires 0 <= i < |rows| => rows[i].activityType)
  }

  lemma ActivityTypesOf(rows: seq<UserActivity>, t: string)
    ensures t in ActivityTypes(rows) <==> exists x :: x in rows && x.activityType == t
  {
    var types := ActivityTypes(rows);
    if t in types {
      var i :| 0 <= i < |types| && types[i] == t;
      assert rows[i] in rows;
    }
  }

  datatype ActivityTotal = ActivityTotal(activityType: string, count: nat)

  /** `ACTIVITY_COUNT`: one row per activity type seen at `since` or later, with
      the number of such rows of that type. */
  function ActivityCount(rows: seq<UserActivity>, since: int): (r: seq<ActivityTotal>)
    ensures var types := ActivityTypes(Since(rows, ActivityAt, since));
            && (forall t :: (exists i :: 0 <= i < |r| && r[i].activityType == t) <==> t in types)
            && (forall i :: 0 <= i < |r| ==> r[i].count == Count(types, r[i].activityType) && r[i].count > 0)
            && (forall i, j :: 0 <= i < j < |r| ==> r[i].activityType != r[j].activityType)
  {
    var types := ActivityTypes(Since(rows, ActivityAt, since));
    var keys := Distinct(types);
    var r := seq(|keys|, i requires 0 <= i < |keys| => ActivityTotal(keys[i], Count(types, keys[i])));
    assert forall t :: (exists i :: 0 <= i < |r| && r[i].activityType == t) <==> t in keys by {
      forall t ensures (exists i :: 0 <= i < |r| && r[i].activityType == t) <==> t in keys {
        if t in keys {
          var i :| 0 <= i < |keys| && keys[i] == t;
          assert r[i].activityType == t;
        }
      }
    }
    r
  }

  /** The counts add up to the number of activity rows in the window. */
  lemma ActivityCountsSum(rows: seq<UserActivity>, since: int)
    ensures var r := ActivityCount(rows, since);
            TotalCount(r) == |Since(rows, ActivityAt, since)|
  {
    var types := ActivityTypes(Since(rows, ActivityAt, since));
    var keys := Distinct(types);
    DistinctCountsSum(types);
    TotalCountIsSumOfCounts(ActivityCount(rows, since), keys, types);
  }

  function TotalCount(r: seq<ActivityTotal>): nat
  {
    if r == [] then 0 else r[0].count + TotalCount(r[1..])
  }

  lemma {:induction false} TotalCountIsSumOfCounts(r: seq<ActivityTotal>, keys: seq<string>, types: seq<string>)
    requires |r| == |keys|
    requires forall i :: 0 <= i < |r| ==> r[i] == ActivityTotal(keys[i], Count(types, keys[i]))
    ensures TotalCount(r) == SumOfCounts(keys, types)
  {
    if r != [] {
      TotalCountIsSumOfCounts(r[1..], keys[1..], types);
    }
  }

  /** The total duration of the rows of one operation type. */
  function DurationSum(rows: seq<PerformanceMetric>, operationType: string): int
  {
    if rows == [] then 0
    else (if rows[0].operationType == operationType then rows[0].durationMs else 0) + DurationSum(rows[1..], operationType)
  }

  /** The operation types of `rows`, row by row. */
  function OperationTypes(rows: seq<PerformanceMetric>): (types: seq<string>)
    ensures |types| == |rows|
    ensures forall i :: 0 <= i < |rows| ==> types[i] == rows[i].operationType
  {
    seq(|rows|, i requires 0 <= i < |rows| => rows[i].operationType)
  }

  datatype OperationAverage = OperationAverage(operationType: string, avgDuration: real)

  /** `avg` is the mean duration of the rows of one type: times their number, it gives their total. */
  predicate IsMean(avg: real, rows: seq<PerformanceMetric>, operationType: string)
  {
    avg * Count(OperationTypes(rows), operationType) as real == DurationSum(rows, operationType) as real
  }

  /** The mean duration of the rows of one type; it has at least one row. */
  function Mean(rows: seq<PerformanceMetric>, operationType: string): (avg: real)
    requires Count(OperationTypes(rows), operationType) > 0
    ensures IsMean(avg, rows, operationType)
  {
    var n := Count(OperationTypes(rows), operationType) as real;
    var avg := DurationSum(rows, operationType) as real / n;
    assert avg * n == DurationSum(rows, operationType) as real;
    avg
  }

  /** `AVG_OPERATION_DURATION`: one row per operation type seen at `since` or
      later, with the mean duration of those rows. */
  function AvgOperationDuration(rows: seq<PerformanceMetric>, since: int): (r: seq<OperationAverage>)
    ensures var window := Since(rows, PerformanceAt, since);
            var types := OperationTypes(window);
            && (forall t :: (exists i :: 0 <= i < |r| && r[i].operationType == t) <==> t in types)
            && (forall i :: 0 <= i < |r| ==> IsMean(r[i].avgDuration, window, r[i].operationType))
            && (forall i, j :: 0 <= i < j < |r| ==> r[i].operationType != r[j].operationType)
  {
    var window := Since(rows, PerformanceAt, since);
    var types := OperationTypes(window);
    var keys := Distinct(types);
    var r := seq(|keys|, i requires 0 <= i < |keys| => OperationAverage(keys[i], Mean(window, keys[i])));
    assert forall t :: (exists i :: 0 <= i < |r| && r[i].operationType == t) <==> t in keys by {
      forall t ensures (exists i :: 0 <= i < |r| && r[i].operationType == t) <==> t in keys {
        if t in keys {
          var i :| 0 <= i < |keys| && keys[i] == t;
          assert r[i].operationType == t;
        }
      }
    }
    r
  }
}
