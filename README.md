# prometheus-sql: query configuration, metric registry and fetch logic

prometheus-sql runs SQL queries periodically, through an SQL agent reached over
HTTP, and exports every result row as a Prometheus gauge. This project models
three parts of it in Dafny and proves properties of each.

- **The query configuration** (`config.go`) covers the global defaults, data
  sources and query descriptors. Each parsed query is filled from the defaults
  and its data source, then validated. A query directory's `.yml` files are
  loaded, with or without tolerance for broken files. Modelled in
  `query_config.dfy` (module `QueryConfig`).
- **The per-query metric registry** (`set.go`, class `QueryResult`) holds one
  gauge per series key.
  - `SetMetrics` turns a record set into series keys and values. It first
    checks the record set's shape. For every row and sub-metric it then splits
    the row into a value column and label columns, creates any gauge it has not
    seen, and sets the gauge's value. It reports every key it met as
    registered (already held, or met earlier in the round) or unregistered
    (new, and met once).
  - `RegisterMetrics` reconciles. Held series the round did not meet are
    unregistered and deleted. New series are registered by deferred calls, so
    every registration happens after every retirement.
  - Modelled in `metric_set.dfy` (module `MetricSet`). `QueryResult` is a
    class whose `result` map the methods update in place. What has been sent
    to Prometheus' registerer is a ghost log of publish and retire events.
- **The worker glue** (`worker.go`) consists of `Worker.SetMetrics`, which
  reconciles only after a successful round, and the decision logic of
  `Worker.Fetch`. A failed attempt applies the single-column error record when
  `ValueOnError` is set and advances the backoff. A cancelled backoff wait ends
  the fetch. A 200 reply resets the backoff and applies the decoded records
  once. Modelled in `worker.dfy` (module `FetchWorker`). A fetch is a sequence
  of abstract attempts, not HTTP.

`text.dfy` (module `Text`) holds the string operations used: ASCII
lower-casing, suffix test, trimming and decimal rendering. `values.dfy`
(module `Values`) holds the decoded value type and the value coercion.
`wrappers.dfy` (module `Wrappers`) holds `Option` and `Result`.

Each state-changing method is proved against a specification function.
- `QueryResult.SetMetrics` is proved against `SetMetricsSpec`.
- `QueryResult.RegisterMetrics` is proved against `Kept`, `Retired` and
  `Pending`.
- `Worker.Fetch` is proved against `FetchSpec`.
- `DecodeQueries` and `LoadQueriesInDir` are proved against `DecodeSpec` and
  `LoadSpec`.

The lemmas then state, about those functions, what the source promises.

A round is also described as a list of writes. `Emit` gives the writes, and
which key gets which value depends only on the record set. `ApplyWrites` lands
the writes on the held gauges. The registry-independent facts (idempotence, the
error record's series, the status of a repeated key) are proved on this form.

## Model

| member | source | states |
|---|---|---|
| Text.Lower | set.go:122-132 | lower-casing keeps the length and lower-cases every character on its own |
| Text.LowerIdempotent | config.go:212 | lower-casing a lower-cased data field changes nothing |
| Text.TrimRight | config.go:236 | the result is a prefix of the path that does not end in '/', and every character removed is a '/' |
| Text.HasSuffixAppended | config.go:235 | any stem followed by a suffix has that suffix |
| Text.NatDecimal | set.go:51 | the decimal text of a natural number is non-empty, all digits, without a leading zero, and reads back as the number |
| Text.IntDecimal | set.go:51 | the %v text of an int is non-empty, starts with '-' exactly when the int is negative, is digits after any sign with no leading zero, and reads back as the int |
| Values.Render | set.go:51 | the %v text of a value: a string is itself; an int is IntDecimal's canonical signed decimal, which reads back as the int; a float is the float format's text; any other value is its own text |
| Values.Coerce | set.go:72-88 | a string becomes its parsed float or a parse error; an int or a float passes through; any other type is an "unhandled type" error; the result fails exactly in those two error cases |
| QueryConfig.CreateDefaultsData | config.go:67-74 | the built-in defaults: a 5-minute interval, a 1-minute timeout, no data source, no value on error |
| QueryConfig.NewConfig | config.go:76-78 | the configuration without a file has the built-in defaults, no data sources, and a non-zero interval and timeout |
| QueryConfig.AppendDefaults | config.go:80-87 | a zero interval becomes 5 minutes and a zero timeout 1 minute; non-zero values and every other field are unchanged; afterwards both are non-zero |
| QueryConfig.ValidateConfig | config.go:89-100 | no error exactly when every data source has a driver and properties; an error names a source without a driver, or a source with a driver but no properties |
| QueryConfig.ValidateQuery | config.go:103-126 | the checks run in the order name, driver, SQL, timeout, interval; each error is returned exactly when every earlier check passes and its own fails; only zero durations are rejected |
| QueryConfig.FillQuery | config.go:184-212 | the name becomes the map key; an empty data-source ref takes the default; an empty driver takes the referenced source's driver and properties when there is a ref and some data sources, and an unknown ref gives an empty driver; zero durations and an empty value on error take the defaults; the data field is lower-cased; SQL, params and sub-metrics are untouched |
| QueryConfig.FillQueryIdempotent | config.go:184-212 | filling an already filled query changes nothing |
| QueryConfig.FilledTimingAlwaysValid | config.go:199-205 | with non-zero default interval and timeout, a filled query never fails the timeout or interval check |
| QueryConfig.UnknownSourceRejected | config.go:191-197 | a named query without a driver whose data source is not configured is rejected for having no driver |
| QueryConfig.DecodeQueries | config.go:166-223 | the nested loop returns DecodeSpec: no configuration, an unreadable input and a malformed input are errors, and otherwise every query is filled and validated in order |
| QueryConfig.FillEntryOutcome | config.go:184-218 | one parsed map decodes exactly when every filled query in it is valid, and then to the filled queries in iteration order |
| QueryConfig.FillEntryFirstError | config.go:213-215 | a map that fails reports the error of its first invalid query, and every query before it is valid |
| QueryConfig.FillAllOutcome | config.go:183-222 | the nested loop over maps behaves as one loop over all pairs: success exactly when every filled query is valid, and then one entry per query in iteration order |
| QueryConfig.LoadQueriesInDir | config.go:225-257 | the directory loop returns LoadSpec: an unreadable directory or an unopenable .yml path aborts; the decoded files' queries are concatenated in listing order; a failing file is skipped or aborts according to allowFileErrors |
| QueryConfig.JoinPath | config.go:236 | the opened path is the directory with its trailing slashes removed, one '/', and the file name |
| QueryConfig.JoinPathIgnoresTrailingSlash | config.go:236 | a trailing '/' on the directory does not change the path opened |
| QueryConfig.QueryFileExtension | config.go:235 | a name ending in ".yml" is loaded; a name ending in ".yaml" is not |
| QueryConfig.QueryFiles | config.go:235 | the files loaded are exactly the listed names ending in ".yml" |
| QueryConfig.OnlyQueryFilesMatter | config.go:233-235 | loading a listing is the same as loading only its .yml names |
| QueryConfig.LaxLoadFailsOnlyOnOpen | config.go:238-252 | with allowFileErrors, loading fails exactly when some .yml path cannot be opened, and that is the error it reports |
| QueryConfig.StrictLoadNeedsEveryFile | config.go:238-252 | without allowFileErrors, loading succeeds exactly when every .yml path opens and decodes |
| MetricSet.MetricName | set.go:39-42 | the metric name is the query name, followed by '_' and the suffix when the suffix is non-empty |
| MetricSet.KeyForInjective | set.go:39-47 | two series keys of one query are equal exactly when their suffixes and facets are |
| MetricSet.Labels | set.go:49-52 | the gauge's labels are the facet's names, each value the lower-cased %v text of the facet's value |
| MetricSet.NewGauge | set.go:60-65 | a new gauge is named query_result_ followed by the metric name, has the fixed help text, the facet's labels and value 0 |
| MetricSet.Create | set.go:54-66 | the key is always held afterwards; a held key leaves the map unchanged; a new key adds exactly one entry, a new gauge for that key, and leaves every other entry unchanged |
| MetricSet.ScanMultiColumn | set.go:121-142 | in a row of several columns, the column loop goes ambiguous exactly at a second data-field match; otherwise the value is the one match, the labels are the non-value columns under their lower-cased names, and a repeated label name keeps its last column |
| MetricSet.SplitSingleColumn | set.go:121-141 | a one-column row's column is the value for any data field, with no labels |
| MetricSet.SplitMultiColumn | set.go:115-146 | in a row of several columns, no data-field match is "data field not found", two or more is "data field not specified", and one gives that column as value with the other non-value columns as labels |
| MetricSet.SetMetricsSpec | set.go:91-160 | a round, failing or not, keeps every gauge that was held |
| MetricSet.EffectiveSubMetrics | set.go:101-108 | the sub-metrics used are SubMetrics when non-empty, otherwise the data field under the empty suffix; never empty |
| MetricSet.ShapeChecksComeFirst | set.go:92-99 | a multi-row record set whose first row has one column, or a query with both a data field and sub-metrics, fails with that error before any gauge is created |
| MetricSet.RunSubsKeepsHeld | set.go:114-156 | a row never removes a held gauge, whether or not it fails |
| MetricSet.RunRowsKeepsHeld | set.go:112-157 | a round never removes a held gauge, whether or not it fails |
| MetricSet.WriteOneBase | set.go:149-151 | registering and setting one key changes only that key's gauge, and only its value |
| MetricSet.ApplyWritesKeys | set.go:149-155 | after a list of writes, a key is held, and has a status, exactly when it was before or is written |
| MetricSet.ApplyWritesOther | set.go:149-155 | a key nobody writes keeps its gauge and its status |
| MetricSet.ApplyWritesValue | set.go:149-155 | a written key's gauge is its earlier or newly created gauge, holding the last value written to it |
| MetricSet.ApplyWritesStatus | set.go:149-155 | a written key is reported unregistered exactly when it was not held before and is written only once |
| MetricSet.RunSubsIsEmitSubs | set.go:114-156 | the sub-metric loop over a row fails with the error Emit reports, or else equals applying Emit's writes |
| MetricSet.RunRowsIsEmitRows | set.go:112-157 | the row loop fails with the error Emit reports, or else equals applying Emit's writes |
| MetricSet.SetMetricsIsEmit | set.go:91-160 | a round fails exactly when Emit does, with the same error, and otherwise is Emit's writes applied from an empty status map |
| MetricSet.ApplyOutcome | set.go:110-159 | writes applied from an empty status map: the statuses cover exactly the written keys; held keys are kept and unwritten ones unchanged; status and value as in ApplyWritesStatus and ApplyWritesValue |
| MetricSet.RoundOutcome | set.go:91-160 | the outcome of a successful round, as ApplyOutcome states it for the round's writes |
| MetricSet.ApplyToSettled | set.go:149-155 | writes landing on exactly their keys, each already holding its last written value, report every key registered and change nothing |
| MetricSet.ApplyAgainIsQuiet | set.go:149-155 | applying the same writes to what reconciliation kept reports every key registered and changes nothing |
| MetricSet.ReapplyIsQuiet | set.go:149-179 | after a successful round and its reconciliation, the same record set changes no gauge and reports every key registered, so the next reconciliation retires and publishes nothing |
| MetricSet.HeldKeysReportedRegistered | set.go:55-56 | in a successful round, every key already held is reported registered |
| MetricSet.OrphanNeverPublished | set.go:149-172 | a gauge created by a round that then failed is not published by the next successful round, which reports it registered |
| MetricSet.RepeatedNewKeyNotPublished | set.go:149-155 | a new key met twice in one round is kept with its last value but reported registered, so it is never published |
| MetricSet.EmitSubsSingleColumn | set.go:121-141 | a one-column row writes its value once per sub-metric, under the sub-metric's key without labels |
| MetricSet.ErrorRecord | worker.go:94-98 | the error record is one row of one column, "error", holding the value on error as a string |
| MetricSet.ErrorRecordWrites | worker.go:94-98 | the error record writes exactly the error series, one per sub-metric suffix without labels, all with the parsed value on error |
| MetricSet.ErrorRecordLeavesErrorSeries | worker.go:93-99 | the error record succeeds; once reconciled, exactly the error series are kept, each holding the value on error, and every other held series is retired |
| MetricSet.ApplyUniform | set.go:163-171 | writes all of one value keep exactly the written keys, each holding that value, and retire every other held key |
| MetricSet.Kept | set.go:164-170 | reconciliation keeps exactly the held keys the round met, with their gauges unchanged |
| MetricSet.Retired | set.go:164-170 | the retired keys are exactly the held keys the round did not meet; they and the kept keys split the held keys |
| MetricSet.Pending | set.go:171-177 | the keys registered later are exactly the held keys the round met as unregistered; all are kept and none retired |
| MetricSet.PublishedAfterReconcile | set.go:163-179 | events that retire first and then publish leave the published set minus the retired keys, plus the published ones |
| MetricSet.Publications | set.go:172-177 | the deferred registrations publish one key each, in order |
| MetricSet.DeferredRegistrations | set.go:172-177 | appending the deferred registrations publishes exactly their keys and retires nothing |
| MetricSet.ReconcileEvents | set.go:163-179 | a reconciliation's events put every retirement before every publication, retire exactly the retired keys, publish exactly the pending ones, and update the published set accordingly |
| MetricSet.PublishedStayHeld | set.go:163-179 | reconciliation keeps every series left published held |
| MetricSet.QueryResult.constructor | set.go:26-33 | a new registry holds no gauge and has published nothing |
| MetricSet.QueryResult.RegisterMetric | set.go:36-67 | returns the key of the metric name with its suffix and the facet; registered exactly when the key was held; the map becomes Create's; nothing is published |
| MetricSet.QueryResult.SetValueForResult | set.go:72-88 | succeeds exactly when Coerce does and then sets the held gauge's value to the coerced float; on failure nothing changes |
| MetricSet.QueryResult.IsValueColumn | set.go:124-129 | true exactly when the column name is some sub-metric's value column |
| MetricSet.QueryResult.SplitColumns | set.go:115-146 | the column loop returns SplitRow's value and labels, or its error |
| MetricSet.QueryResult.SetRow | set.go:114-156 | the sub-metric loop over one row ends in the state RunSubs gives; it never removes a gauge or publishes anything |
| MetricSet.QueryResult.SetRows | set.go:112-157 | the row loop ends in the state RunRows gives, stopping at the first error |
| MetricSet.QueryResult.SetMetrics | set.go:91-160 | the gauges become SetMetricsSpec's; the statuses are returned exactly when the round has no error, and otherwise that error is; nothing is published or retired |
| MetricSet.QueryResult.RegisterMetrics | set.go:163-179 | the map becomes Kept; the new events retire first and then publish; they retire exactly the unmet held keys and publish exactly the met, unregistered ones; every published series stays held |
| MetricSet.QueryResult.RetireUnseen | set.go:164-178 | the loop deletes and retires exactly the unmet held keys, keeps every other gauge, and collects exactly the pending keys for deferred registration |
| FetchWorker.Failed | worker.go:80-90 | an attempt succeeds exactly when it got a response with status 200; a transport error or any other status is a failure |
| FetchWorker.Apply | worker.go:40-49 | Worker.SetMetrics leaves the backoff alone; after a failed round every held gauge is still held and the published series are unchanged; after a successful round the kept keys are the held keys met, no retired key is published and every pending key is |
| FetchWorker.FailOnce | worker.go:92-104 | a failed attempt advances the backoff by one; without ValueOnError it changes nothing else |
| FetchWorker.FetchSpec | worker.go:60-131 | a cancelled fetch has advanced the backoff; any other outcome has reset it, and records or a decode failure come only after some attempt got a 200 reply |
| FetchWorker.FirstFinal | worker.go:86-111 | the attempt that ends a fetch is the first that succeeds or whose backoff wait is cancelled |
| FetchWorker.FetchClosedForm | worker.go:60-131 | a fetch is a run of failed attempts followed by one ending attempt; a failed ending attempt means cancellation; otherwise the backoff is reset, and an undecodable body is a decode failure while decoded records are applied once |
| FetchWorker.AfterFailuresAttempt | worker.go:103 | the backoff advances exactly once per failed attempt |
| FetchWorker.AfterFailuresQuiet | worker.go:93-99 | without ValueOnError, failed attempts leave the gauges and the published series untouched |
| FetchWorker.BackoffAfterFetch | worker.go:101-114 | after a cancelled fetch the backoff has advanced once per attempt made; otherwise it is reset |
| FetchWorker.OnlyFetchedRecordsApply | worker.go:105-131 | without ValueOnError, records are returned exactly when the ending attempt got a 200 reply that decodes; a cancelled fetch or a decode failure leaves the gauges and the published series unchanged |
| FetchWorker.ApplyKeepsPublishedHeld | worker.go:40-49 | Worker.SetMetrics keeps every published series held, whether or not the round fails |
| FetchWorker.FailureLeavesErrorSeries | worker.go:93-103 | a failed attempt with a parsable ValueOnError leaves exactly the error series held, each holding that value, publishes nothing else, and advances the backoff once |
| FetchWorker.Worker.constructor | worker.go:169-195 | a new worker has a fresh empty registry for its query and a reset backoff |
| FetchWorker.Worker.SetMetrics | worker.go:40-49 | the registry changes as Apply says: after a failed round the gauges are those the round left, created and set up to the error, and nothing is published or retired; after a successful round it is reconciled |
| FetchWorker.Worker.Fetch | worker.go:52-132 | the outcome, gauges, published series and backoff are those FetchSpec gives for the attempts |

## Left out

- main.go is not part of this model: flag parsing, the HTTP server, one goroutine per query and the wait group are orchestration and concurrency.
- Worker.Start's ticker loop and context handling (worker.go:135-165) are timers and concurrency.
- HTTP in Fetch is abstracted away. Request building, the client timeout, reading the response body and JSON decoding become an `Attempt`: a transport error or a status code, a body that decodes or not, and whether the backoff wait was cancelled.
- NewWorker's JSON payload, logger and HTTP client are not modelled, nor is the panic when the payload cannot be encoded.
- The backoff's durations and jitter come from a foreign library and use randomness. Only its attempt counter is modelled: advanced by each Duration call and cleared by Reset.
- loadConfig, loadQueryConfig, file reading, environment expansion and YAML parsing are I/O and a foreign parser. Their results are inputs: a `Document` per file, a map from path to content, and a directory listing, which stands for ioutil.ReadDir's result and so is sorted by file name; the files' queries are concatenated in that order.
- Prometheus internals are not modelled. A gauge is a value. Registration is an event in a ghost log. MustRegister's panics (a duplicate or invalid metric descriptor) and Unregister's return value are not modelled.
- strconv.ParseFloat and the %v rendering of a float64 are parameters (`FloatFormat`), not modelled.
- Values.Coerce: an int becomes the exact real number, not the nearest float64.
- MetricSet.QueryResult.SetValueForResult: same as Coerce; the int-to-float64 rounding is not modelled.
- Floats are reals, so float64 rounding, NaN and infinities are not modelled.
- Go re-randomises map iteration order on every range. Record columns, SubMetrics and the parsed query maps are sequences in one fixed iteration order. validateConfig's data sources and RegisterMetrics' walk over the held gauges are visited in an arbitrary order, each step picking any key not yet visited. The results that depend on these orders are: which error is met first; which gauges a failing round created before it failed; the label value and the series key when two columns lower-case to the same label name (the last column wins); the value of a key written by several (row, sub-metric) pairs (the last write wins); the order of the list decodeQueries and loadQueriesInDir return; and the order of the deferred registrations.
- QueryConfig.ValidateConfig: states that the reported source is some unusable one, not which one, since that depends on map order.
- Text.Lower: lower-cases ASCII letters only; Unicode case mapping is not modelled.
- MetricSet.KeyFor: a series key is the pair (metric name, label map), not the concatenated text. Two keys whose texts coincide are distinct here. Examples: int 1 and float 1.0 marshal alike, and a metric name can end in text that looks like JSON.
- A query entry with an empty YAML body decodes to a nil query, and decodeQueries then panics on the name assignment (config.go:185). Parsed entries here are always query values, so that panic is not modelled.
- Durations are unbounded integer nanoseconds; int64 overflow is not modelled.
- Logging and fmt output are not modelled.
- FetchWorker.Worker.Fetch: requires that some attempt ends the fetch. A fetch that keeps failing and is never cancelled runs forever in the source and is not modelled.
