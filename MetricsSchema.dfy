/** The three metrics tables, shared by the server that writes and cleans
    them and the monitoring service that reads them. Times are milliseconds
    since the epoch. */
module MetricsSchema {
  import opened Wrappers
  import opened Seqs
  import opened Accounts

  const HourMs := 3_600_000
  const DayMs := 86_400_000

  /** A `calculation_metrics` row: the counters of the hour starting at `recordedAt`. */
  datatype CalculationMetric = CalculationMetric(recordedAt: int, total: int, authenticated: int, guest: int)

  /** A `performance_metrics` row: how long one operation took. */
  datatype PerformanceMetric = PerformanceMetric(userId: Option<UserId>, operationType: string, durationMs: int, recordedAt: int)

  /** A `user_activity` row: one thing a user or a guest did. */
  datatype UserActivity = UserActivity(userId: Option<UserId>, activityType: string, isGuest: bool, recordedAt: int)

  function CalculationAt(row: CalculationMetric): int { row.recordedAt }
  function PerformanceAt(row: PerformanceMetric): int { row.recordedAt }
  function ActivityAt(row: UserActivity): int { row.recordedAt }

  function TotalOf(row: CalculationMetric): int { row.total }
  function AuthenticatedOf(row: CalculationMetric): int { row.authenticated }
  function GuestOf(row: CalculationMetric): int { row.guest }

  /** The sum of one counter column over the rows. */
  function ColumnSum(rows: seq<CalculationMetric>, column: CalculationMetric -> int): int
  {
    if rows == [] then 0 else column(rows[0]) + ColumnSum(rows[1..], column)
  }

  lemma {:induction false} ColumnSumAppend(a: seq<CalculationMetric>, b: seq<CalculationMetric>, column: CalculationMetric -> int)
    ensures ColumnSum(a + b, column) == ColumnSum(a, column) + ColumnSum(b, column)
  {
    if a == [] {
      assert a + b == b;
    } else {
      assert (a + b)[1..] == a[1..] + b;
      ColumnSumAppend(a[1..], b, column);
    }
  }

  /** The sum does not depend on the order of the rows. */
  lemma {:induction false} ColumnSumPermutation(a: seq<CalculationMetric>, b: seq<CalculationMetric>, column: CalculationMetric -> int)
    requires multiset(a) == multiset(b)
    ensures ColumnSum(a, column) == ColumnSum(b, column)
    decreases |a|
  {
    if a != [] {
      assert a[0] in multiset(b);
      var k :| 0 <= k < |b| && b[k] == a[0];
      var rest := b[..k] + b[k + 1..];
      MultisetWithout(b, k);
      assert a == [a[0]] + a[1..];
      assert multiset(a[1..]) == multiset(a) - multiset{a[0]};
      ColumnSumPermutation(a[1..], rest, column);
      ColumnSumWithout(b, k, column);
    }
  }

  lemma MultisetWithout(b: seq<CalculationMetric>, k: nat)
    requires k < |b|
    ensures multiset(b[..k] + b[k + 1..]) == multiset(b) - multiset{b[k]}
  {
    assert b == b[..k] + [b[k]] + b[k + 1..];
  }

  lemma ColumnSumWithout(b: seq<CalculationMetric>, k: nat, column: CalculationMetric -> int)
    requires k < |b|
    ensures ColumnSum(b, column) == column(b[k]) + ColumnSum(b[..k] + b[k + 1..], column)
  {
    assert b == b[..k] + [b[k]] + b[k + 1..];
    ColumnSumAppend(b[..k] + [b[k]], b[k + 1..], column);
    ColumnSumAppend(b[..k], [b[k]], column);
    ColumnSumAppend(b[..k], b[k + 1..], column);
    assert ColumnSum([b[k]], column) == column(b[k]) + ColumnSum([], column);
  }

  /** The rows recorded at `since` or later (`WHERE recorded_at >= since`), in table order. */
  function Since<T(!new)>(rows: seq<T>, at: T -> int, since: int): (r: seq<T>)
    ensures forall x :: x in r <==> x in rows && at(x) >= since
    ensures |r| <= |rows|
  {
    Filter(rows, (x: T) => at(x) >= since)
  }

  /** Rows added later extend the window in order. */
  lemma SinceAppend<T(!new)>(rows: seq<T>, more: seq<T>, at: T -> int, since: int)
    ensures Since(rows + more, at, since) == Since(rows, at, since) + Since(more, at, since)
  {
    FilterConcat(rows, more, (x: T) => at(x) >= since);
  }

  /** Deleting old rows keeps the keys of the rows that stay distinct. */
  lemma SinceKeepsKeysDistinct<T(!new)>(rows: seq<T>, at: T -> int, since: int, key: T -> int)
    requires KeysDistinct(rows, key)
    ensures KeysDistinct(Since(rows, at, since), key)
  {
    FilterKeepsKeysDistinct(rows, (x: T) => at(x) >= since, key);
  }
}
