# Parenteral nutrition calculator — a verified model of its core

The calculator turns a parenteral-nutrition prescription into grams and
energy. A prescription is given as volume (ml) and concentration (%) of
three solutions: glucose, amino acids and lipids. Glucose and amino acids
give 4 kcal/g and lipids 9 kcal/g. The mobile client keeps a local
history of calculations and talks to a REST server. The server:

- checks registration, login and calculation bodies;
- authenticates callers with a bearer token, strictly or optionally;
- stores calculations per user;
- records usage metrics (hourly calculation counters, operation
  durations, user activity) and serves them under `/api/metrics`.

A separate monitoring service reads the metric tables every pass and
publishes three gauges.

This project models those parts in Dafny and proves their properties:

- the arithmetic of the calculation, and what rounding does to the totals;
- the validators, with the exact condition under which a body passes;
- the client's history store, a bounded newest-first list;
- the client's token interceptors;
- the header parsing of the two authentication middlewares;
- the calculations controller, over the `calculations` table held as a
  sequence of rows;
- the metrics service, its query building and its endpoints;
- the monitoring queries and the aggregation pass.

State the source changes in place is modelled as classes:

- `Storage.HistoryStore`: the history key on the device;
- `Api.AuthStore`: the stored token and user;
- `AuthMiddleware.Exchange`: `req.user`, `next` and the response;
- `CalculationController.CalculationsTable`;
- `MetricsService.MetricsStore`: the three metric tables;
- `Aggregator.Registry`: the gauge values.

Each method's postcondition ties the new state to a specification
function. The lemmas are stated about those functions.

Outside calls become parameters:

- a database or storage failure is a `bool`, or the step at which a
  multi-step operation failed;
- `jwt.verify` and the users lookup are functions;
- `isEmail` and `normalizeEmail` are functions;
- the current time is an `int` of milliseconds.

The rows of the metrics views are inputs, given in the order the view
returns them.

## Model

| member | source | states |
|---|---|---|
| Calculations.MathRound | utils/calculations.ts:43 | `Math.round` gives the integer nearest to x, with halves rounded up: x − 0.5 < n ≤ x + 0.5 |
| Calculations.RoundToCents | utils/calculations.ts:43-60 | `Math.round(x*100)/100` is the cents value that x rounds to, and it is not negative when x is not negative |
| Calculations.RoundsToUnique | utils/calculations.ts:43-60 | a value rounds to one cents figure only |
| Calculations.CalculateGrams | utils/calculations.ts:16-19 | grams of solute times 100 equal volume times concentration |
| Calculations.CalculateNutrition | utils/calculations.ts:24-61 | each macro's grams and energy (4, 4 and 9 kcal/g), the total energy and the total volume are the exact values rounded to cents; the total energy is rounded once, from the exact sum |
| Calculations.NonNegativeResult | utils/calculations.ts:24-61 | a prescription with no negative volume or concentration gives no negative figure |
| Calculations.EmptySolutionContributesNothing | utils/calculations.ts:16-19 | any of the three solutions with zero volume or zero concentration gives 0 g and 0 kcal for that macronutrient |
| Calculations.TotalIsNotSumOfRoundedComponents | utils/calculations.ts:38-60 | the shown total energy can differ from the sum of the shown components (0.003 kcal twice shows 0.00 each and 0.01 in total) |
| Calculations.TotalWithinOneCentOfComponents | utils/calculations.ts:38-60 | that difference is never more than 0.01 kcal |
| Decimal.NatToString | server/src/controllers/calculationController.js:92 | `toString` of a row id is a non-empty run of digits with no leading zero |
| Decimal.NatToStringInjective | server/src/controllers/calculationController.js:92 | different ids have different texts |
| Decimal.ParseInt | server/src/routes/metrics.js:44 | `parseInt` is NaN exactly when no digit follows the optional sign |
| Decimal.ParseIntRoundTrip | server/src/routes/metrics.js:44 | `parseInt` reads back the decimal text of a number, even when followed by text that does not start with a digit |
| Decimal.ParseInteger | server/src/controllers/calculationController.js:140-143 | the query succeeds exactly when the whole text is an optionally signed, non-empty run of digits ("12abc" and "" fail, where `parseInt` reads 12 and NaN); an id that Postgres reads is what `parseInt` reads from it too |
| Decimal.ParseIntegerRoundTrip | server/src/controllers/calculationController.js:140-143 | Postgres reads back the decimal text of an integer |
| Validation.Check | server/src/validators/calculationValidators.js:3-38 | one check gives no error when it holds, and exactly its field and message when it fails |
| CalculationValidators.Errors | server/src/validators/calculationValidators.js:3-38 | the collected errors are empty exactly when every rule passes; every failing rule is reported, and every report comes from a failing rule |
| CalculationValidators.RuleOfEachField | server/src/validators/calculationValidators.js:3-38 | each of the fourteen fields has a rule, and every rule of that field checks "present, ≥ 0, and ≤ 100 for a concentration" |
| CalculationValidators.ValidateIff | server/src/validators/calculationValidators.js:3-38 | a body passes exactly when every field is present and not negative, and every concentration is at most 100 |
| CalculationValidators.FailingFieldReported | server/src/validators/calculationValidators.js:3-38 | a failing field appears in the errors under its own name and message |
| CalculationValidators.TotalsAreNotCheckedAgainstComponents | server/src/validators/calculationValidators.js:3-38 | the validator accepts a body whose total energy does not match its components |
| Submission.CalculatedSubmissionPasses | server/src/validators/calculationValidators.js:3-38 | the body the calculator screen sends (its six entries and the calculated results, by column name) passes this validator whenever the screen's own check (app/(tabs)/index.tsx, lines 46-62) accepted the entries and every concentration is at most 100 % |
| Submission.ConcentrationAboveHundredRefused | server/src/validators/calculationValidators.js:5-7 | the screen's own check (app/(tabs)/index.tsx, lines 46-62) only asks that entries are not negative, so it can send a glucose concentration above 100, and this validator refuses that body |
| AuthValidators.TrimStart | server/src/validators/authValidators.js:11-15 | the result is a suffix of the text; it does not start with white space; everything removed is white space |
| AuthValidators.TrimEnd | server/src/validators/authValidators.js:11-15 | the result is a prefix of the text; it does not end with white space; everything removed is white space |
| AuthValidators.Trim | server/src/validators/authValidators.js:11-15 | `trim` removes exactly the white space at both ends and keeps the middle |
| AuthValidators.TrimPadded | server/src/validators/authValidators.js:11-15 | white space around a text with non-blank ends is removed, and nothing else is |
| AuthValidators.TrimBlank | server/src/validators/authValidators.js:11-15 | a text that is all white space trims to "" |
| AuthValidators.TrimIdempotent | server/src/validators/authValidators.js:11-15 | trimming twice gives the same as trimming once |
| AuthValidators.TrimUnchanged | server/src/validators/authValidators.js:11-15 | a text with non-blank ends is left as it is |
| AuthValidators.RegisterErrors | server/src/validators/authValidators.js:3-16 | the e-mail, password-length and name-length errors appear exactly when their conditions fail; there are no errors exactly when the e-mail is valid, the password has at least 6 characters, and a name, when given, has at most 255 characters once trimmed; no other report appears and none appears twice |
| AuthValidators.LoginErrors | server/src/validators/authValidators.js:18-21 | the e-mail and password errors appear exactly when the e-mail is invalid or the password is empty; no other report appears and none appears twice |
| AuthValidators.Sanitized | server/src/validators/authValidators.js:3-16 | the e-mail handed on is `normalizeEmail` of the one given, the name is the trimmed one, the password is kept, and no field appears or disappears |
| AuthValidators.RegisteredCanLogIn | server/src/validators/authValidators.js:3-21 | a form that passes registration also passes login |
| AuthValidators.StoredNameIsChecked | server/src/validators/authValidators.js:11-15 | the name handed on is the trimmed one, of at most 255 characters |
| AuthValidators.PaddedNameAccepted | server/src/validators/authValidators.js:11-15 | white space around a name of at most 255 characters does not count towards its length |
| Storage.Pushed | utils/storage.ts:6-16 | the new entry comes first and the older entries follow in order, cut to at most 50 in total |
| Storage.PushedKeepsAllBelowCapacity | utils/storage.ts:9-11 | below 50 entries, saving drops nothing |
| Storage.PushedDropsOldestAtCapacity | utils/storage.ts:9-11 | at 50 entries, saving drops exactly the oldest |
| Storage.PushedKeepsDuplicateIds | utils/storage.ts:6-16 | saving does not replace an entry with the same id; both are kept |
| Storage.WithoutId | utils/storage.ts:44-52 | the entries kept are exactly those whose id is not the deleted one |
| Storage.WithoutAbsentId | utils/storage.ts:47 | deleting an id that no entry has changes nothing |
| Storage.WithoutPresentId | utils/storage.ts:47 | deleting an id that some entry has shortens the history |
| Storage.WithoutIdKeepsOrder | utils/storage.ts:47 | deleting keeps the order of the remaining entries |
| Storage.HistoryStore.constructor | utils/storage.ts:18-34 | nothing is stored at first |
| Storage.HistoryStore.GetHistory | utils/storage.ts:18-34 | the stored list, or [] when the key is empty or unreadable |
| Storage.HistoryStore.SaveCalculation | utils/storage.ts:6-16 | a successful write stores the history with the entry pushed; a failed write changes nothing |
| Storage.HistoryStore.DeleteCalculation | utils/storage.ts:44-52 | a successful write stores the history without that id; a failed write changes nothing |
| Storage.HistoryStore.ClearHistory | utils/storage.ts:36-42 | a successful removal leaves the key empty and the history []; a failed one changes nothing |
| Api.BearerHeader | utils/api.ts:19-21 | the header is "Bearer " followed by the token, and nothing else |
| Api.DeleteUrl | utils/api.ts:129-132 | the path is `/calculations/` followed by the id |
| Api.AuthStore.constructor | utils/api.ts:106-114 | no token and no user are stored at first |
| Api.AuthStore.InterceptRequest | utils/api.ts:16-27 | with a stored token the Authorization header is set to its bearer form and no other header changes; without one the headers go out unchanged |
| Api.AuthStore.InterceptError | utils/api.ts:30-40 | a 401 removes the token and the user; any other error leaves both; the error is passed on unchanged |
| Api.AuthStore.ReceiveAuthResponse | utils/api.ts:82-94 | a successful register or login stores the token and user it returned; a failed one goes through the error interceptor |
| Api.AuthStore.Logout | utils/api.ts:96-99 | afterwards no token and no user are stored, so the client is not authenticated |
| Api.LoginThenRequest | utils/api.ts:16-27 | after a login every request carries "Bearer " and the new token, and its other headers are unchanged |
| Api.UnauthorizedThenRequest | utils/api.ts:30-40 | after a 401 the next request goes out without a token |
| AuthMiddleware.Split | server/src/middleware/auth.js:8 | `split(' ')` gives at least one part, and no part contains the separator |
| AuthMiddleware.JoinSplit | server/src/middleware/auth.js:8 | joining the parts with the separator gives back the header |
| AuthMiddleware.StrictToken | server/src/middleware/auth.js:7-12 | the token is the second space-separated word of the header, exactly when that word exists and is not empty; otherwise there is none |
| AuthMiddleware.OptionalToken | server/src/middleware/auth.js:42-51 | the token is what follows "Bearer "; there is none when the header is missing or does not start with it |
| AuthMiddleware.AuthenticateDecision | server/src/middleware/auth.js:5-36 | the caller proceeds exactly when there is a token, it verifies and the user exists; otherwise the answer is 401 with "Access token required", "Invalid token", "Token expired" or "User not found", or 500; an unknown verification error or a failed user lookup gives 500 "Authentication error" |
| AuthMiddleware.OptionalDecision | server/src/middleware/auth.js:39-84 | the user is set exactly when a bearer token verifies and the user exists; every other path is a guest |
| AuthMiddleware.BearerHeaderRoundTrip | server/src/middleware/auth.js:7-51 | both middlewares read back the token of a "Bearer " header |
| AuthMiddleware.SchemeWordIgnoredByStrictOnly | server/src/middleware/auth.js:8 | the strict middleware takes the token after any scheme word, such as "Basic", while the optional one refuses it |
| AuthMiddleware.DoubleSpaceReadsDifferently | server/src/middleware/auth.js:8 | with two spaces after "Bearer" the strict middleware finds no token, and the optional one reads a token with a leading space |
| AuthMiddleware.Exchange.constructor | server/src/middleware/auth.js:5 | no user, no call to `next`, no response |
| AuthMiddleware.Exchange.AuthenticateToken | server/src/middleware/auth.js:5-36 | either the user is set and `next` is called once, or the decision's status and error are sent and nothing else changes |
| AuthMiddleware.Exchange.OptionalAuth | server/src/middleware/auth.js:39-84 | `req.user` is set to the decision, `next` is called exactly once, and no response is sent |
| EndToEnd.ClientHeaderReadByServer | utils/api.ts:19-21 | for a non-empty token without spaces, both middlewares read back the same token from the header the client builds |
| EndToEnd.DeletePathNamesRow | utils/api.ts:129-132 | the delete path of a listed entry parses back to that row's id on the server |
| CalculationController.ColumnsOf | server/src/controllers/calculationController.js:31-59 | each body field goes to its own column |
| CalculationController.ToHistoryEntry | server/src/controllers/calculationController.js:91-126 | the entry has the decimal text of the row id, the creation time, and every column in its place |
| CalculationController.EntryIdsDistinct | server/src/controllers/calculationController.js:92 | different rows give different entry ids |
| CalculationController.OwnedNewestFirst | server/src/controllers/calculationController.js:82-88 | the caller's rows, each at most once, newest first, min(50, their number) of them |
| CalculationController.OwnedNewestFirstKeepsNewest | server/src/controllers/calculationController.js:82-88 | a caller's row left out is no newer than any row listed, and below 50 rows none is left out |
| CalculationController.HistoryFor | server/src/controllers/calculationController.js:72-133 | a guest gets [] and the login hint; a failed query gives "Failed to get calculations"; otherwise the caller's rows are listed as history entries |
| CalculationController.HistoryIsCallersNewestFirst | server/src/controllers/calculationController.js:82-128 | the listed history is newest first, and each entry comes from one of the caller's rows |
| CalculationController.StoredRowReadsBack | server/src/controllers/calculationController.js:31-126 | a saved row reads back as the prescription and result that were sent |
| CalculationController.WithoutOwnedRow | server/src/controllers/calculationController.js:149-152 | the rows kept are exactly those that do not have both that id and that owner |
| CalculationController.WithoutOwner | server/src/controllers/calculationController.js:163 | the rows kept are exactly those of other users and of guests |
| CalculationController.DeleteRemovesExactlyOne | server/src/controllers/calculationController.js:140-152 | with unique ids, deleting one of the caller's rows removes that row and nothing else |
| CalculationController.ClearKeepsOthersInOrder | server/src/controllers/calculationController.js:163 | clearing keeps the other rows in their order |
| CalculationController.CalculationsTable.constructor | server/src/controllers/calculationController.js:31-41 | the table starts empty and its id sequence is valid |
| CalculationController.CalculationsTable.Create | server/src/controllers/calculationController.js:4-70 | an invalid body gets 400 with its errors; a failed insert gets 500 "Failed to save calculation"; otherwise one new row with a new id, the caller as owner (none for a guest) and the body's values is appended, with the saved or guest message |
| CalculationController.CalculationsTable.GetCalculations | server/src/controllers/calculationController.js:72-133 | the answer is `HistoryFor` of the current rows |
| CalculationController.CalculationsTable.DeleteCalculation | server/src/controllers/calculationController.js:135-159 | an id that is not an integer, or a failed query, gives 500; a row the caller does not own gives 404 and no change; otherwise that row goes and the answer is "Calculation deleted successfully" |
| CalculationController.CalculationsTable.ClearCalculations | server/src/controllers/calculationController.js:161-170 | every row of the caller goes and every other row stays; a failed query gives 500 and no change |
| MetricsSchema.ColumnSumPermutation | monitoring/app/services/aggregator.py:21-27 | the order of the rows does not change a column's sum |
| MetricsSchema.Since | monitoring/app/queries.py:11 | the rows kept are exactly those recorded at the bound or later |
| MetricsSchema.SinceAppend | server/src/services/metricsService.js:194-207 | the window filter distributes over a table split in two |
| MetricsService.HourOf | server/src/services/metricsService.js:15-16 | the hour bucket is a whole hour, at or before the time and less than an hour before it |
| MetricsService.Upsert | server/src/services/metricsService.js:18-36 | rows of other hours are kept, no other row is added, and afterwards a row exists for the current hour |
| MetricsService.UpsertCountsOnce | server/src/services/metricsService.js:18-36 | the counters summed over all hours go up by 1 (total), a (authenticated) and g (guest) |
| MetricsService.UpsertKeepsCountersValid | server/src/services/metricsService.js:25-29 | after the upsert there is still at most one row per hour, and each row's total is the sum of its authenticated and guest counts |
| MetricsService.GetActiveUsers | server/src/services/metricsService.js:82-97 | the view's first row, or zeros when the view is empty; nothing when the query fails |
| MetricsService.Limit | server/src/services/metricsService.js:107 | `LIMIT n` keeps the first min(n, length) rows, and fails for a negative n |
| MetricsService.GetCalculationStats | server/src/services/metricsService.js:104-115 | exactly the first min(`limit`, length) rows of the view; nothing when the query fails or the limit is negative |
| MetricsService.BuildPerformanceQuery | server/src/services/metricsService.js:125-134 | the placeholders are $1 … $n in the order of the parameters, the limit is the last parameter, and the operation filter is present exactly when a type is given |
| MetricsService.OfType | server/src/services/metricsService.js:125-131 | the rows kept are those of the requested type, or all rows without a filter |
| MetricsService.GetPerformanceStats | server/src/services/metricsService.js:122-142 | min(`limit`, number of rows of the requested type) rows of the view, of that type, each at most once, latest hour first |
| MetricsService.PerformanceStatsKeepLatest | server/src/services/metricsService.js:133 | a row left out is not later than any row listed |
| MetricsService.GetMetricsSummary | server/src/services/metricsService.js:148-183 | the active users, the last hour's counters or zeros, the latest performance row, and the total, authenticated and guest counts of saved calculations; nothing when any query fails |
| MetricsService.SummaryTotalIsSum | server/src/services/metricsService.js:158-170 | the summary's total is its authenticated count plus its guest count |
| MetricsService.CleanupKeepsExactlyRecentRows | server/src/services/metricsService.js:189-214 | a complete cleanup keeps exactly the rows recorded at the cutoff or later in all three tables, and the counter table stays valid |
| MetricsService.FailedCleanupStopsAtStep | server/src/services/metricsService.js:194-212 | a failed cleanup leaves the tables of the steps it did not reach unchanged |
| MetricsService.MetricsStore.constructor | server/src/services/metricsService.js:13-77 | the three metric tables start empty |
| MetricsService.MetricsStore.RecordCalculation | server/src/services/metricsService.js:13-41 | a successful write performs the upsert for the current hour; a failed write changes nothing and is not reported |
| MetricsService.MetricsStore.RecordPerformance | server/src/services/metricsService.js:49-59 | a successful write appends one row with the caller, type, duration and time; a failed write changes nothing |
| MetricsService.MetricsStore.RecordActivity | server/src/services/metricsService.js:67-77 | a successful write appends one activity row; a failed write changes nothing |
| MetricsService.MetricsStore.CleanOldMetrics | server/src/services/metricsService.js:189-214 | the result is success exactly when no step failed; the tables become the cleaned tables for the cutoff now − days, with only the steps before the failure done |
| MetricsRoutes.NumberOr | server/src/routes/metrics.js:44 | `parseInt(x) \|\| fallback`: the number the text starts with, or the fallback when there is none or it is 0 |
| MetricsRoutes.OperationTypeParam | server/src/routes/metrics.js:61 | there is no filter for a missing or empty parameter |
| MetricsRoutes.Guarded | server/src/routes/metrics.js:11-86 | the middleware's refusal is passed on as it is; otherwise the service's result, or the endpoint's failure message |
| MetricsRoutes.Summary | server/src/routes/metrics.js:11-19 | refused exactly when the middleware refuses; a caller let through is served exactly when the summary's queries succeed, with that summary; "Failed to get metrics summary" otherwise |
| MetricsRoutes.ActiveUsersRoute | server/src/routes/metrics.js:26-34 | refused exactly when the middleware refuses; a caller let through is served the active users exactly when the query succeeds; zeros for an empty view |
| MetricsRoutes.CalculationsRoute | server/src/routes/metrics.js:42-51 | a caller let through is served exactly when the query succeeds and the limit (the number given, or 24) is not negative, and then gets exactly the service's first rows of the view |
| MetricsRoutes.PerformanceRoute | server/src/routes/metrics.js:59-69 | a caller let through is served exactly when the query succeeds and the limit is not negative, and then gets exactly the service's rows: of the requested type when one is given, latest hour first, no more than the limit |
| MetricsRoutes.NumberRoundTrip | server/src/routes/metrics.js:44 | a non-zero number written as text is used as it is |
| MetricsRoutes.TextLimitFallsBack | server/src/routes/metrics.js:44 | a limit that does not start with a number gives the default 24 |
| MetricsRoutes.NegativeLimitFails | server/src/routes/metrics.js:44-49 | a negative limit is passed on, so an authenticated caller gets the 500 |
| MetricsRoutes.CalculationsDefaultLimit | server/src/routes/metrics.js:44-46 | without a limit, the first 24 rows of the view are listed |
| MetricsRoutes.Cleanup | server/src/routes/metrics.js:77-86 | a refused caller changes nothing; otherwise the tables are cleaned for the days given (30 by default), and the answer reports those days or "Failed to clean metrics" |
| Queries.CalculationMetricsLastHours | monitoring/app/queries.py:4-13 | exactly the counter rows recorded at the bound or later, oldest first |
| Queries.ActivityTypesOf | monitoring/app/queries.py:26-33 | a type is among the window's activity types exactly when some row in the window has it |
| Queries.ActivityCount | monitoring/app/queries.py:26-33 | one row for each activity type seen in the window, each with the number of rows of that type |
| Queries.ActivityCountsSum | monitoring/app/queries.py:26-33 | the counts add up to the number of activity rows in the window |
| Queries.Mean | monitoring/app/queries.py:19 | times the number of rows of that type, the average gives their total duration |
| Queries.AvgOperationDuration | monitoring/app/queries.py:16-23 | one row for each operation type seen in the window, each with the mean duration of its rows |
| Aggregator.SetEachKeepsOthers | monitoring/app/services/aggregator.py:37-50 | setting a gauge label by label leaves the other gauges' labels untouched |
| Aggregator.SetEachLastWins | monitoring/app/services/aggregator.py:37-50 | a label seen in the rows holds the value of its last row |
| Aggregator.Registry.constructor | monitoring/app/metrics.py:4-22 | no gauge has a value at first |
| Aggregator.Registry.SetCalculationTotals | monitoring/app/services/aggregator.py:21-30 | the loop's sums set the authenticated and guest labels |
| Aggregator.Registry.SetDurations | monitoring/app/services/aggregator.py:37-40 | each row sets its operation type's label |
| Aggregator.Registry.SetActivityCounts | monitoring/app/services/aggregator.py:47-50 | each row sets its activity type's label |
| Aggregator.Registry.CollectMetrics | monitoring/app/services/aggregator.py:11-50 | the pass succeeds exactly when no fetch fails; the gauges become the collected values for the window that starts 24 hours before now, with the steps before any failure done |
| Aggregator.CalculationTotalsOfWindow | monitoring/app/services/aggregator.py:13-30 | the authenticated and guest labels hold the sums of those counters over the last 24 hours, and 0 when there are no rows |
| Aggregator.DurationsOfWindow | monitoring/app/services/aggregator.py:32-40 | each operation type seen in the window holds its mean duration; every other operation label keeps its old value |
| Aggregator.ActivityOfWindow | monitoring/app/services/aggregator.py:42-50 | each activity type seen in the window holds its count; every other activity label keeps its old value |
| Aggregator.FailedPassKeepsEarlierSteps | monitoring/app/services/aggregator.py:15-50 | if the first fetch fails, no gauge changes; if the second fails, only the calculation totals are set; if the third fails, the result is that of a pass over an empty activity table |

## Left out

- Numbers are modelled as exact reals, not IEEE-754 doubles. So `Math.round(1.005 * 100)` is 101 here, while doubles give 100.
- The DECIMAL(10,2) column type is not modelled. A value stored and read back is the value sent.
- `parseFloat` of the entered texts is not modelled. The screen's `isNaN` test becomes "the entered value is a number".
- The current time is an integer of milliseconds. Time zones and daylight saving are left out. So are `setMinutes` and `setDate` on local time, and `utcnow()`. The cleanup cutoff is now − days × 24 h, and the hour bucket is the time truncated to a whole hour.
- `parseInt` is modelled as an optional sign followed by decimal digits. Leading white space, other radixes and the `0x` prefix are left out.
- Postgres's 32-bit `integer` range is not modelled: ids and counts are unbounded. An id text that Postgres cannot read as an integer gives a 500.
- Decimal.ParseInteger: the model reads only an optional sign followed by decimal digits. Postgres's integer input also accepts white space around the number, and from version 16 `_` separators and the `0x`, `0o` and `0b` prefixes. For such ids the model answers 500 where the server would look the row up.
- Api.AuthStore: the device's key-value store is taken to read and write without failing. In the client, `register` and `login` reject when a write fails; if the token is written and the user is not, the token stays stored. The request interceptor rejects the request when reading the token fails. None of these failure paths is modelled here, unlike the history store's writes.
- The JSON encoding of the history is not modelled, nor how it turns `Date` values back into text. A readable stored list reads back as itself. Text that cannot be parsed reads as an empty history.
- AuthValidators.RegisterErrors: a length is the number of characters. The validator's `isLength` also counts a surrogate pair as one character, but unlike the model it leaves out the variation selectors U+FE0E and U+FE0F. So a password of five letters followed by U+FE0F is refused by the server and accepted by the model. The same difference applies to the 255-character name limit. White space for `trim` is JavaScript's full white-space and line-terminator set.
- `isEmail` and `normalizeEmail` are opaque functions. What express-validator's sanitizer does to a missing e-mail is not modelled.
- The `metrics_schema.sql` views are not part of this model. Their rows are inputs, in the order the view returns them.
- Ties under `ORDER BY` are not modelled, nor the output order of `GROUP BY`. The model fixes one order.
- `jwt.verify` and the users lookup are function parameters. Token signing and expiry are not modelled.
- Each database query either succeeds or fails as a whole. Concurrency is not modelled: the check-then-delete race, requests that interleave, and the parallel queries of `Promise.all`.
- `console` logging is not modelled.
- `daysToKeep` is read as text, like a query parameter. A JSON number in the body is the decimal text of that number.
- The monitoring service's scheduler and the Prometheus exposition format are not modelled. A pass is one call; a gauge is a map from (gauge, label) to a value.
- A failed monitoring pass keeps the gauge values it set before the failing fetch, as the code does. It is not all or nothing.
- Aggregator.Registry.CollectMetrics: the three fetches are given as the contents of the tables at the time of the pass. The time between fetches is not modelled.
- The screens, navigation and rendering of the client are not modelled.
- The server's other routes and the database migrations are not part of this model.
