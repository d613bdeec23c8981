/** The metrics endpoints under `/api/metrics`. Each one runs
    `authenticateToken` first and answers with the middleware's error when it
    refuses; otherwise it calls the metrics service and answers with its
    result, or with a 500 and a message of its own when the service fails. */
module MetricsRoutes {
  import opened Wrappers
  import opened Decimal
  import opened Accounts
  import opened MetricsSchema
  import opened AuthMiddleware
  import opened MetricsService
  import CalculationController

  /** An endpoint's answer: refused by the middleware, served, or failed (status 500). */
  datatype RouteReply<T> = Denied(status: int, error: string) | Served(value: T) | Failed(error: string)

  const DefaultLimit := 24
  const DefaultDaysToKeep := 30

  /** `parseInt(text) || fallback`: the number the text starts with, unless
      there is none or it is 0. */
  function NumberOr(text: Option<string>, fallback: int): (n: int)
    ensures text.None? ==> n == fallback
    ensures text.Some? && ParseInt(text.value).Some? && ParseInt(text.value).value != 0 ==> n == ParseInt(text.value).value
    ensures text.Some? && (ParseInt(text.value).None? || ParseInt(text.value) == Some(0)) ==> n == fallback
  {
    if text.None? then fallback
    else match ParseInt(text.value)
      case Some(v) => if v != 0 then v else fallback
      case None => fallback
  }

  /** `req.query.operation_type || null`: no filter for a missing or empty parameter. */
  function OperationTypeParam(text: Option<string>): (t: Option<string>)
    ensures t.Some? <==> text.Some? && text.value != ""
    ensures t.Some? ==> t == text
  {
    if text.Some? && text.value != "" then text else None
  }

  /** The middleware's refusal, or else the service's result or the endpoint's failure message. */
  function Guarded<T>(decision: Outcome, result: Option<T>, failure: string): (r: RouteReply<T>)
    ensures r.Denied? <==> decision.Respond?
    ensures r.Denied? ==> r.status == decision.status && r.error == decision.error
    ensures decision.Proceed? ==> (r.Served? <==> result.Some?)
    ensures r.Served? ==> r.value == result.value
    ensures r.Failed? ==> r.error == failure
  {
    if decision.Respond? then Denied(decision.status, decision.error)
    else if result.Some? then Served(result.value)
    else Failed(failure)
  }

  /** `GET /summary`. */
  function Summary(header: Option<string>, verify: string -> Verification, lookup: int -> Lookup,
                   activeUsersView: Option<seq<ActiveUsers>>, calculationStatsView: Option<seq<HourStats>>,
                   performanceView: Option<seq<PerformanceStat>>, calculations: Option<seq<CalculationController.Row>>)
    : (r: RouteReply<MetricsSummary>)
    ensures r.Denied? <==> AuthenticateDecision(header, verify, lookup).Respond?
    ensures AuthenticateDecision(header, verify, lookup).Proceed? ==>
              (r.Served? <==> GetMetricsSummary(activeUsersView, calculationStatsView, performanceView, calculations).Some?)
    ensures r.Served? ==> Some(r.value) == GetMetricsSummary(activeUsersView, calculationStatsView, performanceView, calculations)
    ensures r.Failed? ==> r.error == "Failed to get metrics summary"
  {
    Guarded(AuthenticateDecision(header, verify, lookup),
            GetMetricsSummary(activeUsersView, calculationStatsView, performanceView, calculations),
            "Failed to get metrics summary")
  }

  /** `GET /active-users`. */
  function ActiveUsersRoute(header: Option<string>, verify: string -> Verification, lookup: int -> Lookup,
                            view: Option<seq<ActiveUsers>>)
    : (r: RouteReply<ActiveUsers>)
    ensures r.Denied? <==> AuthenticateDecision(header, verify, lookup).Respond?
    ensures AuthenticateDecision(header, verify, lookup).Proceed? ==> (r.Failed? <==> view.None?)
    ensures r.Served? ==> Some(r.value) == GetActiveUsers(view)
    ensures r.Served? && view.value == [] ==> r.value == ActiveUsers(0, 0, 0)
    ensures r.Failed? ==> r.error == "Failed to get active users"
  {
    Guarded(AuthenticateDecision(header, verify, lookup), GetActiveUsers(view), "Failed to get active users")
  }

  /** `GET /calculations?limit=`. */
  function CalculationsRoute(header: Option<string>, verify: string -> Verification, lookup: int -> Lookup,
                             limit: Option<string>, view: Option<seq<HourStats>>)
    : (r: RouteReply<seq<HourStats>>)
    ensures r.Denied? <==> AuthenticateDecision(header, verify, lookup).Respond?
    ensures AuthenticateDecision(header, verify, lookup).Proceed? ==>
              (r.Served? <==> view.Some? && NumberOr(limit, DefaultLimit) >= 0)
    ensures r.Served? ==> Some(r.value) == GetCalculationStats(view, NumberOr(limit, DefaultLimit))
    ensures r.Served? ==> view.Some? && r.value <= view.value && |r.value| <= NumberOr(limit, DefaultLimit)
    ensures r.Failed? ==> r.error == "Failed to get calculation stats"
  {
    Guarded(AuthenticateDecision(header, verify, lookup),
            GetCalculationStats(view, NumberOr(limit, DefaultLimit)),
            "Failed to get calculation stats")
  }

  /** `GET /performance?operation_type=&limit=`. */
  function PerformanceRoute(header: Option<string>, verify: string -> Verification, lookup: int -> Lookup,
                            operationType: Option<string>, limit: Option<string>, view: Option<seq<PerformanceStat>>)
    : (r: RouteReply<seq<PerformanceStat>>)
    ensures r.Denied? <==> AuthenticateDecision(header, verify, lookup).Respond?
    ensures AuthenticateDecision(header, verify, lookup).Proceed? ==>
              (r.Served? <==> view.Some? && NumberOr(limit, DefaultLimit) >= 0)
    ensures r.Served? ==> Some(r.value) == GetPerformanceStats(view, OperationTypeParam(operationType), NumberOr(limit, DefaultLimit))
    ensures r.Served? ==> forall i, j :: 0 <= i < j < |r.value| ==> r.value[i].hour >= r.value[j].hour
    ensures r.Served? ==>
              && view.Some? && |r.value| <= NumberOr(limit, DefaultLimit)
              && forall x :: x in r.value ==> x in view.value && (OperationTypeParam(operationType).Some? ==> x.operationType == operationType.value)
    ensures r.Failed? ==> r.error == "Failed to get performance stats"
  {
    Guarded(AuthenticateDecision(header, verify, lookup),
            GetPerformanceStats(view, OperationTypeParam(operationType), NumberOr(limit, DefaultLimit)),
            "Failed to get performance stats")
  }

  /** A number written in the query string is the one used, unless it is 0. */
  lemma NumberRoundTrip(i: int, fallback: int)
    requires i != 0
    ensures NumberOr(Some(IntToString(i)), fallback) == i
  {
    ParseIntRoundTrip(i, "");
    assert IntToString(i) + "" == IntToString(i);
  }

  /** A limit that does not start with a number falls back to the default. */
  lemma TextLimitFallsBack(text: string)
    requires text != [] && !IsDigit(text[0]) && text[0] != '-' && text[0] != '+'
    ensures NumberOr(Some(text), DefaultLimit) == DefaultLimit
  {
    assert SignLength(text) == 0;
    assert text[0..] == text;
  }

  /** A negative limit is passed on as it is, so the query fails and an
      authenticated caller gets the endpoint's 500. */
  lemma NegativeLimitFails(header: Option<string>, verify: string -> Verification, lookup: int -> Lookup,
                           n: int, view: seq<HourStats>)
    requires n < 0 && AuthenticateDecision(header, verify, lookup).Proceed?
    ensures CalculationsRoute(header, verify, lookup, Some(IntToString(n)), Some(view)) == Failed("Failed to get calculation stats")
  {
    NumberRoundTrip(n, DefaultLimit);
  }

  /** Without a limit the newest 24 rows of the view are listed. */
  lemma CalculationsDefaultLimit(header: Option<string>, verify: string -> Verification, lookup: int -> Lookup,
                                 view: seq<HourStats>)
    requires AuthenticateDecision(header, verify, lookup).Proceed?
    ensures var r := CalculationsRoute(header, verify, lookup, None, Some(view));
            r.Served? && r.value <= view && |r.value| == if |view| < 24 then |view| else 24
  {
  }

  function CleanupMessage(days: int): string
  {
    "Cleaned metrics older than " + IntToString(days) + " days"
  }

  /** `POST /cleanup` with body field `daysToKeep`: refused callers change
      nothing; otherwise the cleanup runs and reports the days it kept. */
  method Cleanup(store: MetricsStore, header: Option<string>, verify: string -> Verification, lookup: int -> Lookup,
                 daysToKeep: Option<string>, now: int, failedAt: Option<CleanStep>)
    returns (r: RouteReply<string>)
    requires store.Valid()
    modifies store
    ensures store.Valid()
    ensures r.Denied? <==> AuthenticateDecision(header, verify, lookup).Respond?
    ensures r.Denied? ==> r == Denied(AuthenticateDecision(header, verify, lookup).status, AuthenticateDecision(header, verify, lookup).error)
                          && store.Contents() == old(store.Contents())
    ensures !r.Denied? ==>
              var days := NumberOr(daysToKeep, DefaultDaysToKeep);
              && (r == if failedAt.None? then Served(CleanupMessage(days)) else Failed("Failed to clean metrics"))
              && store.Contents() == Cleaned(old(store.Contents()), now - days * DayMs, failedAt)
  {
    var decision := AuthenticateDecision(header, verify, lookup);
    if decision.Respond? {
      return Denied(decision.status, decision.error);
    }
    var days := NumberOr(daysToKeep, DefaultDaysToKeep);
    var ok := store.CleanOldMetrics(days, now, failedAt);
    if ok {
      r := Served(CleanupMessage(days));
    } else {
      r := Failed("Failed to clean metrics");
    }
  }
}
