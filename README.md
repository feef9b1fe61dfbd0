# musthave-metrics in Dafny

A model of the metrics collection service rkinwork/musthave-metrics. The
server keeps named metrics of two kinds. A gauge holds a float reading that
each update overwrites. A counter holds an int64 delta that each update adds
to. The server validates metrics at its boundary, aggregates them in a
repository over an in-memory store, and persists snapshots either on a timer
or write-through on every update. The agent gathers runtime metrics in rounds,
counting the rounds in the PollCount counter, and normalises the server
address it reports to. Configuration comes from defaults, then command-line
flags, then environment variables.

The source files are from several iterations of the project and do not
compile together. Each one is modelled on its own terms, one Dafny module per
file, over a shared `Models.Metrics` record:

| module | source file | form |
|---|---|---|
| `Models` | internal/storage/models.go | datatypes |
| `Storage` | internal/storage/storage.go | class over a `map` |
| `Repository` | internal/storage/repository.go | class, plus fold functions and lemmas |
| `Helpers` | internal/storage/helpers.go | functions and lemmas |
| `Config` | internal/config/config.go | class mutated in place, plus merge functions |
| `InMemStorage` | internal/storage/inmemstorage.go | class, plus a pure model of its save loop |
| `MetricSaver` | internal/storage/metricsaver.go | class state machine, plus a pure model of its loop |
| `Reporter` | internal/agent/reporter.go | function, plus a loop method over the repository |
| `AgentConfig` | cmd/agent/config.go | datatype, options as data, loop method |
| `ServerConfig` | cmd/server/config.go | datatype, loop method |
| `ServerStorage` | cmd/server/storage.go | classes over two maps |

`GoInt` models Go's int64, whose `+` and `*` wrap around, as an explicit
two's-complement wrap. `Wrappers` holds `Option`, `Result` and `Outcome`,
which stand for nil `*T` values, `(value, error)` pairs and bare `error` results.

Modelling decisions:
- A gauge reading is a `Float64` kept as its 64-bit pattern. The code only
  stores and overwrites readings, so no float arithmetic is needed.
- `MetricHash` and `GetHash` are not part of this model. A stored metric is
  keyed by its name together with its kind (`Models.KeyOf`).
- The constants `GaugeMetric` and `CounterMetric` and the `Metric` interface
  are defined outside the files this model follows. The model defines them
  with assumed values: the kinds are "gauge" and "counter" (`Models`), taken
  from the JSON payloads in internal/server/handler_test.go, and `Metric` is
  a `Gauge | Counter` datatype (`Helpers.Metric`) whose `ExportTypeName`
  returns those strings, as internal/server/handler.go:64 uses it.
- Durations are int64 nanoseconds. The untyped constants in
  internal/config/config.go:29 and :57-58 become raw durations: the default
  store interval is therefore 300 nanoseconds, not 300 seconds. The model
  follows the code here.
- Goroutine `select` loops are modelled as a pure step function over events,
  plus a `Step` method on the class. Ghost counters record each call to the
  saver's `Save` or `Load`, together with the listing a save was given.
- The outcomes of file, flag and environment parsing are inputs (`Result`
  values), and so is `strconv.ParseFloat` (a function parameter).
  `strconv.ParseInt(s, 10, 64)` is written out in full.
- In internal/agent/reporter.go, `CollectMemMetrics` passes `Metric` values to
  a `Collect` that takes `Metrics`. The model converts each metric with
  `Helpers.ConvertToSend`, so the repository gets the metric's wire form.
- Write-through (interval 0) and ticking (positive interval) are meant to be
  exclusive modes. The code starts a ticker unconditionally in internal/storage/inmemstorage.go,
  and reads a nil ticker in internal/storage/metricsaver.go. Both are recorded
  under Findings. The class models use the corrected behaviour.

## Model

| member | source | states |
|---|---|---|
| GoInt.Add | internal/storage/repository.go:27 | int64 `+`: the true sum whenever it is in range, wrapped otherwise |
| GoInt.Mul | internal/config/config.go:101 | int64 `*`: the true product whenever it is in range, wrapped otherwise |
| GoInt.WrapAddAbsorb | internal/storage/repository.go:27 | wrapping an intermediate sum does not change the wrapped final sum, so repeated int64 `+=` is the wrapped total |
| Models.NewMetrics | internal/storage/models.go:16-23 | builds the record from its four arguments, field by field, with no validation |
| Models.NewMetricsIsTotal | internal/storage/models.go:16-23 | every record, of any kind and with any payloads, can be built by `NewMetrics` |
| Models.AbsentIsNotZero | internal/storage/models.go:12-13 | a nil delta or value differs from a zero one |
| Models.KeyOf | internal/storage/storage.go:20 | the storage key is exactly the record's name and kind |
| Models.KindSeparatesKeys | internal/storage/storage.go:20 | a counter and a gauge with the same name are stored under different keys |
| Storage.ListMetrics | internal/storage/storage.go:38-44 | lists every entry of the map exactly once: same count, each item stored under its key, no key repeated |
| Storage.ListingIsComplete | internal/storage/storage.go:38-44 | every stored entry appears in a listing |
| Storage.SetAll | internal/storage/inmemstorage.go:133-135 | a sequence of `Set`s keeps every entry stored under its own key |
| Storage.SetAllLastWins | internal/storage/inmemstorage.go:133-135 | after a sequence of `Set`s, each mentioned key holds the last record for it, and the other keys are unchanged |
| Storage.InMemMetricStorage.constructor | internal/storage/storage.go:46-52 | a new store is empty |
| Storage.InMemMetricStorage.Get | internal/storage/storage.go:19-22 | found iff the key is stored, with the stored record; otherwise the zero record |
| Storage.InMemMetricStorage.Set | internal/storage/storage.go:24-29 | stores the record under its key, leaves the rest of the map alone, returns nil |
| Storage.InMemMetricStorage.Delete | internal/storage/storage.go:31-36 | removes exactly that key, returns nil |
| Storage.InMemMetricStorage.IterMetrics | internal/storage/storage.go:38-44 | returns each stored metric exactly once |
| Repository.Aggregate | internal/storage/repository.go:22-32 | a counter's delta is added to the stored one (int64 `+`), or kept for a new key; any other kind is returned as it came |
| Repository.CollectStore | internal/storage/repository.go:22-32 | one `Collect` keeps every stored counter carrying a delta |
| Repository.CollectAll | internal/storage/repository.go:22-32 | a sequence of `Collect`s keeps every stored counter carrying a delta |
| Repository.CollectAllOtherKeys | internal/storage/repository.go:22-32 | keys that no collected metric mentions are left exactly as they were |
| Repository.CollectSameCounter | internal/storage/repository.go:23-29 | a `Collect` under a counter key adds its delta to the stored value, a missing entry counting as 0 |
| Repository.CollectOtherCounter | internal/storage/repository.go:22-32 | a `Collect` under another key leaves a counter unchanged |
| Repository.CounterTotal | internal/storage/repository.go:23-29 | after `Collect`s in any sequential order, interleaving keys, a counter holds the int64 sum of its earlier value and every delta submitted for it |
| Repository.CounterSumNoOverflow | internal/storage/repository.go:26-29 | with non-negative deltas and no overflow, a counter is the plain sum, and on a fresh key the sum of the submitted deltas |
| Repository.LastWriteWins | internal/storage/repository.go:22-32 | for any other kind, the stored record is the last one collected for its key |
| Repository.MetricRepository.constructor | internal/storage/repository.go:49-51 | a new repository sits over a new, empty store |
| Repository.MetricRepository.Get | internal/storage/repository.go:18-20 | returns what the store's `Get` returns |
| Repository.MetricRepository.Collect | internal/storage/repository.go:22-32 | stores the aggregated metric under its key, returns that metric, and passes on the store's nil error |
| Repository.MetricRepository.Delete | internal/storage/repository.go:34-36 | removes the key from the store |
| Repository.MetricRepository.GetAllMetrics | internal/storage/repository.go:38-40 | lists every stored metric exactly once |
| Helpers.Metric.ExportTypeName | internal/storage/helpers.go:78-88 | a gauge reports "gauge", a counter reports "counter" |
| Helpers.NamePatternIsValidName | internal/storage/helpers.go:24 | `ValidName` is exactly `validNamePattern`: 1 to 128 characters, an ASCII letter first, ASCII word characters after it, and `$` matching only at the end of the text, so no trailing newline |
| Helpers.ParseInt64 | internal/storage/helpers.go:32-34 | succeeds only on an optional sign followed by at least one digit and nothing else |
| Helpers.FormatThenParse | internal/storage/helpers.go:32-34 | parsing after decimal formatting gives back every int64 |
| Helpers.ParseRejectsNonDigit | internal/storage/helpers.go:32-34 | any non-digit after the sign makes the parse fail |
| Helpers.ConvertFrom | internal/storage/helpers.go:41-62 | the name is checked first; success iff the required payload is present (and, for a counter, not negative); each error case gets its own error; the payload is passed through |
| Helpers.ConvertToSend | internal/storage/helpers.go:78-88 | the record has the metric's name and kind, with only that kind's payload set |
| Helpers.ConvertRoundTrip | internal/storage/helpers.go:41-88 | `ConvertFrom` after `ConvertToSend` gives the metric back iff its name is valid and its count is not negative |
| Helpers.ConvertThenSend | internal/storage/helpers.go:41-88 | `ConvertToSend` after an accepted `ConvertFrom` gives the input with the other kind's payload dropped |
| Helpers.ParseMetric | internal/storage/helpers.go:26-39 | a counter is accepted iff the name is valid and the value parses as a non-negative int64; a gauge iff the name is valid and the value parses as a float; any other kind is rejected |
| Helpers.UpdatePathExamples | internal/server/handler_test.go:104-167 | the handler test paths: "868434sdf", "868434.2342", "1roman" and an unknown kind are rejected; "868434" is accepted as 868434 |
| Helpers.UpdateJsonExamples | internal/server/handler_test.go:206-241 | the JSON test cases: a gauge sent with a delta and a negative counter delta are rejected; a gauge value is accepted, and so is a zero delta, since only a negative one is refused |
| Config.Seconds | internal/config/config.go:101 | n seconds as int64 nanoseconds, exact whenever that is in range |
| Config.WithEnv | internal/config/config.go:75-111 | a non-empty string or a positive interval overrides its field, anything else keeps it; STORE_INTERVAL, FILE_STORAGE_PATH and RESTORE are never applied |
| Config.EnvOverridesFlags | internal/config/config.go:43-50 | after flags and then the environment, a set variable wins and an unset one leaves the flag's value; the store interval comes from the flag |
| Config.WithEnvIdempotent | internal/config/config.go:91-108 | loading the same environment twice gives the same result as loading it once |
| Config.Config.constructor | internal/config/config.go:36-42 | the new config holds the given field values |
| Config.Config.LoadFromEnv | internal/config/config.go:75-111 | on a parse error, returns it and changes nothing; otherwise merges the environment into the config in place |
| Config.Config.LoadFromFlagsServer | internal/config/config.go:133-157 | on a parse error, returns it and changes nothing; otherwise assigns all six server flags, with `-i` in seconds |
| Config.Config.LoadFromFlagsAgent | internal/config/config.go:113-131 | on a parse error, returns it and changes nothing; otherwise assigns the address, both intervals in seconds, and the storage type |
| Config.New | internal/config/config.go:35-52 | returns a config iff there is no error; outside production, the server defaults; in production, flags then environment, and the first error wins |
| Config.NewAgent | internal/config/config.go:54-73 | the same rules, from the agent defaults and the agent flags |
| InMemStorage.SelectSaver | internal/storage/inmemstorage.go:142-148 | the JSON file saver (with the configured path) exactly when the storage type is "filestorage"; otherwise the Noop saver |
| InMemStorage.SaverLoad | internal/storage/inmemstorage.go:49-74 | a Noop load returns no metrics and no error; a JSON load returns what reading the file gave |
| InMemStorage.SaverSave | internal/storage/inmemstorage.go:28-72 | a Noop save always succeeds; a JSON save reports what writing the file gave |
| InMemStorage.StartAsWritten | internal/storage/inmemstorage.go:158 | the loop crashes at start unless the interval is positive |
| InMemStorage.StartLoop | internal/storage/inmemstorage.go:157-179 | corrected start: the loop is selecting, with a ticker iff the interval is positive |
| InMemStorage.LoopStep | internal/storage/inmemstorage.go:159-178 | a tick saves if there is a ticker; a save signal saves iff the interval is 0; cancel stops the ticker, saves once and returns; a loop that has stopped does nothing |
| InMemStorage.RunBeforeCancel | internal/storage/inmemstorage.go:159-170 | until cancel, the number of saves is the number of ticks (with a ticker) plus the number of save signals (when the interval is 0) |
| InMemStorage.RunAfterReturn | internal/storage/inmemstorage.go:171-176 | once the loop has returned, no event saves |
| InMemStorage.RunThroughCancel | internal/storage/inmemstorage.go:171-176 | cancel adds exactly one save and ends the loop for good, whatever follows |
| InMemStorage.AsWrittenWriteThroughNeverSaves | internal/storage/inmemstorage.go:158-170 | as written, interval 0 never saves at all |
| InMemStorage.WriteThroughSavesEverySignal | internal/storage/inmemstorage.go:165-176 | corrected, interval 0 saves once per signal, plus once on cancel |
| InMemStorage.InMemMetricStorage.constructor | internal/storage/inmemstorage.go:140-186 | chooses the saver, starts the loop, and then restores (if enabled and the load succeeds) by setting each loaded record |
| InMemStorage.InMemMetricStorage.Get | internal/storage/inmemstorage.go:87-90 | found iff the key is stored; otherwise the zero record |
| InMemStorage.InMemMetricStorage.Set | internal/storage/inmemstorage.go:92-98 | stores the record under its key and sends one save signal |
| InMemStorage.InMemMetricStorage.Delete | internal/storage/inmemstorage.go:100-106 | removes the key and sends one save signal |
| InMemStorage.InMemMetricStorage.IterMetrics | internal/storage/inmemstorage.go:108-114 | returns each stored metric exactly once |
| InMemStorage.InMemMetricStorage.SaveMetrics | internal/storage/inmemstorage.go:116-121 | one more save, given a listing of the whole map; returns the selected saver's error (`SaverSave`); the map is unchanged |
| InMemStorage.InMemMetricStorage.LoadMetrics | internal/storage/inmemstorage.go:123-138 | does nothing when restore is off; passes on a load error with the map unchanged; otherwise sets the loaded records in order (the last record for a key wins), one save signal each |
| InMemStorage.InMemMetricStorage.Step | internal/storage/inmemstorage.go:159-178 | one pass of the `select`, following `LoopStep`: a pending save signal is consumed, each save lists the current map, and nothing is received when no signal is pending; once the loop has returned, nothing is saved and a pending signal stays pending |
| MetricSaver.StartAsWritten | internal/storage/metricsaver.go:97-101 | without a ticker, the goroutine crashes on its first `select` |
| MetricSaver.Advance | internal/storage/metricsaver.go:98-108 | a tick saves iff there is a ticker; cancel saves once and finishes; a loop that is not running does nothing |
| MetricSaver.RunFromRunning | internal/storage/metricsaver.go:98-108 | while running, one save per tick; the first cancel adds exactly one save and finishes for good |
| MetricSaver.RunAfterFinish | internal/storage/metricsaver.go:102-106 | a finished loop never saves again |
| MetricSaver.RunAfterCrash | internal/storage/metricsaver.go:100 | a crashed loop never saves |
| MetricSaver.NoTickerShutdown | internal/storage/metricsaver.go:100-106 | with no ticker: as written, cancel never saves and the loop never finishes; corrected, cancel saves once and finishes |
| MetricSaver.MetricsSaver.constructor | internal/storage/metricsaver.go:121-134 | a ticker exactly when the store interval is positive; not started; no saves and no loads yet |
| MetricSaver.MetricsSaver.Save | internal/storage/metricsaver.go:30-49 | one more save, given a listing of the repository |
| MetricSaver.MetricsSaver.Collect | internal/storage/metricsaver.go:112-119 | delegates the `Collect`, then saves exactly once iff the store interval is 0, and returns the delegate's metric and error |
| MetricSaver.MetricsSaver.Start | internal/storage/metricsaver.go:93-110 | loads exactly once iff restore is set, then runs the loop |
| MetricSaver.MetricsSaver.Step | internal/storage/metricsaver.go:98-108 | one pass of the `select`, following `Advance`; each save lists the repository |
| MetricSaver.MetricsSaver.Done | internal/storage/metricsaver.go:89-91 | returns exactly when the loop has finished, and then the final save is among the saves made |
| Reporter.FormatServerAddress | internal/agent/reporter.go:101-113 | the result always starts with "http://"; ":port" becomes "http://localhost:port"; an "http://" address is kept; any other address gets only the scheme |
| Reporter.FormatIdempotent | internal/agent/reporter.go:101-113 | formatting an address twice gives the same result as formatting it once |
| Reporter.FormatWithoutScheme | internal/agent/reporter_test.go:31-44 | an address starting with neither ':' nor 'h', such as "localhost:9999" or "192.168.0.1:9999", gets only "http://" in front |
| Reporter.FormatWithScheme | internal/agent/reporter_test.go:36-39 | "http://192.168.0.1:9999" is kept |
| Reporter.FormatBarePort | internal/agent/reporter_test.go:46-49 | ":9999" becomes "http://localhost:9999" |
| Reporter.RoundStep | internal/agent/reporter.go:59-63 | collecting one more metric of a round keeps the round's progress invariant |
| Reporter.CollectMemMetrics | internal/agent/reporter.go:57-64 | in any map order, PollCount goes up by exactly 1 (int64 `+`), each gauge holds its new reading, and nothing else changes |
| AgentConfig.Defaults | cmd/agent/config.go:21-26 | "http://localhost:8080", a 10 s report interval and a 2 s poll interval |
| AgentConfig.SchemeAddress | cmd/agent/config.go:38-41 | the result starts with "http"; "http://" is added iff the address does not already start with "http" |
| AgentConfig.Apply | cmd/agent/config.go:33-65 | each option changes only its own field; an empty address or a zero interval changes nothing; n > 0 sets n seconds; a negative interval panics with that value |
| AgentConfig.ApplyAllSnoc | cmd/agent/config.go:27-29 | options are applied in order |
| AgentConfig.PanicsIffNegative | cmd/agent/config.go:45-65 | `New` panics iff some option is a negative interval, and then panics at the first such option |
| AgentConfig.PanicAbsorbs | cmd/agent/config.go:27-29 | options after a panicking one are never applied |
| AgentConfig.LaterAddressWins | cmd/agent/config.go:27-41 | a later non-empty address overrides all earlier ones |
| AgentConfig.OnlyOwnField | cmd/agent/config.go:33-65 | a field no option of its kind names keeps its starting value |
| AgentConfig.New | cmd/agent/config.go:21-31 | the defaults, then each option in order, stopping at a panic; with no options, the defaults |
| ServerConfig.WithAddress | cmd/server/config.go:21-28 | an empty address changes nothing; any other is stored verbatim |
| ServerConfig.AllEmptyKeepsDefault | cmd/server/config.go:11-19 | when every option is empty, the default address stays |
| ServerConfig.LastNonEmptyWins | cmd/server/config.go:15-17 | the last non-empty address wins |
| ServerConfig.New | cmd/server/config.go:11-19 | the address is the last non-empty option, or ":8080" |
| ServerStorage.Added | cmd/server/storage.go:36-38 | adds to the stored value (int64 `+`), or stores v for a missing name; no other name changes |
| ServerStorage.AddsAccumulate | cmd/server/storage.go:36-38 | repeated `Add`s leave the int64 sum of the earlier value and every added value; no other name changes |
| ServerStorage.LocalCounter.Add | cmd/server/storage.go:36-38 | the counter map becomes `Added` of the old map |
| ServerStorage.LocalCounter.constructor | cmd/server/storage.go:49 | an empty counter map |
| ServerStorage.LocalGauge.Set | cmd/server/storage.go:40-42 | overwrites only that name's reading |
| ServerStorage.LocalGauge.constructor | cmd/server/storage.go:50 | an empty gauge map |
| ServerStorage.MemStorage.constructor | cmd/server/storage.go:44-52 | two new, separate, empty maps |

## Left out

- HTTP handlers and routing (internal/server/handler.go, cmd/server/handler.go), the gzip middleware, and the resty sender (`SendMetric`, `SendMetrics`, `NewMetricSender`). These are network I/O. The decisions the handlers make reduce to `Helpers` and `Repository.MetricRepository.Collect`.
- File, JSON and PostgreSQL persistence (`JSONFileSaver`, internal/storage/jsonmetricsaver.go, internal/storage/pgsqlmetricsaver.go). These are I/O: a load or save result is an input, and a save is a ghost counter plus the listing it was given.
- MetricSaver.MetricsSaver.Start: the load is recorded as a count. The records it would `Set` into the repository are file I/O and not modelled.
- Concurrency: mutexes, goroutine interleaving and the blocking capacity-1 `save` channel. Events are explicit `Step` calls. A count of pending signals replaces blocking: after the loop has returned the model keeps a signal pending for good, but does not capture the next `Set` then blocking for ever. Two concurrent `Collect`s on one counter can lose an update, because `Get` and `Set` take the lock separately (internal/storage/repository.go:26-31); the model covers sequential calls only.
- Repository.MetricRepository.Collect: `requires Collectable(x)` excludes a counter whose `Delta` is nil. The Go code dereferences it and panics (internal/storage/repository.go:25); the model has no caller that submits such a counter.
- Floating point: a reading is kept as its bit pattern. `strconv.ParseFloat` is a parameter, and `ConvertTo` (helpers.go:64-76, which converts a counter with `float64`) is not modelled.
- `ParseJSONRequest` (JSON decoding) and `NewRepository` (whose only case returns `NewInMemMetricRepository`).
- `getMemMetrics`: the runtime readings and `rand` are inputs, as a round map.
- The flag and environment parsing libraries: their parsed records, with the flags' default values already filled in, are inputs.
- cmd/server/main.go and cmd/agent/main.go: signals, `ListenAndServe` and the agent's sleep loop.
- `MetricHash` is not part of this model; the `Metric` interface and the kind constants are defined with assumed values (see above). Go's `int` in cmd/agent/config.go is assumed to be 64 bits.
- Logging and `fmt.Println`.

## Findings

| source | as written | input that shows it | evidently intended | confidence | as-written member | corrected member |
|---|---|---|---|---|---|---|
| internal/storage/inmemstorage.go:158 | the save loop always calls `time.NewTicker(imms.Interval)`, which panics for an interval that is not positive | store interval 0 (write-through mode, e.g. flag `-i 0`): then one `Set`, whose save signal is never acted on | start a ticker only for a positive interval, so that in write-through mode each save signal saves and cancel saves once more | high; not executed | InMemStorage.StartAsWritten, InMemStorage.AsWrittenWriteThroughNeverSaves | InMemStorage.StartLoop, InMemStorage.WriteThroughSavesEverySignal |
| internal/storage/metricsaver.go:100 | the `select` reads `ms.ticker.C`, but `ticker` is nil whenever the store interval is not positive, so the goroutine dereferences nil | store interval 0, `Start`, then cancellation: no final save, `quit` is never closed, and `Done` never returns | treat a missing ticker as a channel that never fires, so that cancel still saves and releases `Done` | high; not executed | MetricSaver.StartAsWritten, MetricSaver.NoTickerShutdown | MetricSaver.Advance, MetricSaver.RunFromRunning |
