# Capacity planning operator: a verified model of its decisions

The operator watches the volumes (PVCs) of a cluster, fits trends to their usage, ranks and
compares risks, forecasts budgets, keeps one CapacityPlan active and sends notifications.
This project models the code between the samples and those decisions and proves what it
promises. `dafny verify dfyconfig.toml` checks all of it.

| file | what it models |
|---|---|
| `Growth`, `GrowthInvariance` | least squares over a PVC's samples, R², days until full |
| `RingBuffer` | the circular sample buffer, as a queue that keeps its last elements |
| `Watcher`, `WatcherModel` | the PVC watcher: its objects in place, and its runs |
| `WatcherConcurrency`, `WatcherReaders`, `WatcherLosses` | Reconcile next to Configure, GetSnapshot next to both, and how much they can lose |
| `RiskSignals`, `SignalMeanings`, `FillPredictions`, `CarriedUsage`, `Insights` | summaries, trend windows and projections; when the two fill predictions agree; what is carried over from the stored status and when insights are asked for |
| `Anomalies`, `AnomalyRules`, `Ranking`, `ShownRisks` | anomaly rules, top risks and leaderboards |
| `RiskChanges`, `ChangeMeanings`, `RiskSnapshot`, `SnapshotMeanings` | what changed between two risk lists; the text behind the risk snapshot hash |
| `Budgets`, `BudgetTotals`, `BudgetConservation` | storage budget forecasts, what they count, and that no byte is counted twice |
| `ActivePlan` | which CapacityPlan is active, while plans come and go |
| `LLMCache`, `LLMCacheKeys`, `LLMCacheRuns`, `LLMClients`, `OllamaKeys` | the cache of LLM clients, what its key gives away, its runs, what a client is built from, and when two Ollama plans share one |
| `Breaker`, `BreakerConcurrency` | the FastAPI circuit breaker, with one caller and with many |
| `Notification`, `NotificationWaits` | cooldown and on-change gating over a stored status |
| `RecordStore`, `RecordRoundTrip`, `JsonStrings`, `TornAppends` | the alert receiver's file of webhook payloads, the JSON strings in it, and what failing appends do to it |
| `Ordering`, `Text`, `Decimals`, `Calendar`, `Durations`, `Keys`, `Times`, `Options`, `PlanTypes` | what these share: sorting, joined text, Go's text forms of values, keys, times |

## How the model reads the code

- What the code changes step by step is a method with loops or a class with fields, proved
  against a function of the inputs or of the old state; the lemmas are about that function.
- The laws about such a function name the fields, thresholds and units of the source outright
  (`NotificationWaits`, `ChangeMeanings`, `BudgetTotals`, `AnomalyRules` and their like), so
  that they hold of the code's figures and not just of whatever the function computes.
- `float64` is `real` and integers are unbounded. Seconds and nanoseconds are told apart:
  the regression sees whole seconds, everything else nanoseconds, and a time that goes
  through the API server comes back in whole seconds.
- `sort.Slice` is an unstable sort: a method whose contract only says that the result is a
  sorted permutation. Where a result is called determined, the comparator is shown to
  separate the elements. A Go map is walked in an arbitrary order.
- The API server, the metrics backend, Secrets, HTTP exchanges, the disk and the clock are
  parameters: every outcome they can have is an input.
- Concurrency is a state machine whose steps are the code's atomic sections; a theorem
  about runs is about every sequence of steps.
- Two facts are asked of the inputs where the code relies on them: PVCs in one list have
  different namespace/name pairs (a namespace listed twice in `spec.namespaces` would break
  this, `internal/controller/capacityplan_controller.go:738-744`), and names hold no
  character that the code uses to join them.

## Where the code and its documentation differ

- `api/v1/capacityplannotification_types.go:16` calls the cooldown the minimum time between
  notifications. The stored time is rounded down to its second, so a notification can follow
  up to a second early: `Notification.RoundingShortensCooldown` gives one that does,
  `Notification.CooldownKeptExactly` when it cannot happen: after a notification that is sent
  on a whole second and whose status update succeeds.
- `internal/alertreceiver/server.go:83` leaves headroom for escaped payloads. It does not
  cover every payload that is accepted: `RecordRoundTrip.AcceptedPayloadCanBlockReading`;
  `RecordRoundTrip.AppendsReadBack` says exactly when reading succeeds.
- `api/v1/capacityplan_types.go:217-219` offers 0 to disable the days-until-full check. The
  code replaces 0 by 7, and `RiskSignals.DaysCheckIsOffExactly` shows that only negative
  values, which the API's validation refuses, turn the check off.

## What else the code does not do

- A notification that no channel could deliver counts as sent: what the channels answered has
  no influence on any later one (`Notification.DeliveryIsForgotten`), the same risks are tried
  again exactly as `Notification.UndeliveredIsNotRetried` says, and the next reconcile that
  skips them reports Ready (`Notification.FailureIsMasked`).
- A recreated PVC shows the capacity last reported for its predecessor;
  `WatcherModel.CapacitySurvivesRecreation` says exactly when, `WatcherModel.InheritanceEnds`
  until when.
- The summary's and the risk signal's fill predictions can contradict each other;
  `FillPredictions.FillPredictionsAgreeExactly` says for which instants of sampling.
- A resize loses the push of a Reconcile that has already loaded the buffer;
  `WatcherReaders.ReadersUnderConcurrency` bounds the loss, `WatcherLosses.EveryResizeCanLoseAPush`
  meets the bound.
- A model or a URL that imitates the parts of the cache key between them can get an Ollama plan
  the client of another configuration: exactly when is `OllamaKeys.WrongClientExactly`. For every
  provider `LLMCacheKeys.Unambiguous` rules it out.
- An append that fails after it wrote something spoils the next one that succeeds, or adds a
  record of its own: `TornAppends.AppendsReadBackExactly` says exactly when the successful appends
  are read back.
- The wait between two insights is forgotten when a status update fails or the plan is inactive
  for a while: `Insights.AskedExactly`, `Insights.ClearedIsAskedAgain`.

## Model

| member | source | states |
|---|---|---|
| `Growth.CalculateGrowth` | internal/analysis/growth.go:50-115 | the two accumulation loops, the guard, the slope, R² and the fill prediction compute exactly the regression that the lemmas below are about |
| `Growth.SumsOfSquares` | internal/analysis/growth.go:79-88 | the second loop's `ssTot` and `ssRes` are the squared distances of the samples from their mean level and from the fitted line |
| `Growth.LeastSquares` | internal/analysis/growth.go:59-88 | with at least two distinct seconds among the samples, every line other than the computed one has strictly larger squared residuals |
| `Growth.DenominatorGuard` | internal/analysis/growth.go:69-74 | `denom` is never negative and is zero exactly when all samples fall in one second |
| `Growth.VariationSplits` | internal/analysis/growth.go:79-88 | `ssTot` = `ssRes` + slope² · Σ(x − x̄)² |
| `Growth.RSquaredRange` | internal/analysis/growth.go:25-26 | R² lies in [0, 1] for every sample list; when usage varies it is 1 exactly when some line carries every sample |
| `Growth.RSquaredIsExplainedShare` | internal/analysis/growth.go:79-93 | R² · ssTot = ssTot − ssRes = slope² · Σ(x − x̄)²; R² is zero for samples of one second and for usage that does not vary |
| `Growth.SteadyGrowthIsFound` | internal/analysis/growth.go:59-93 | usage that is the same number of bytes higher per 86 400 seconds is given exactly that growth per day, with R² one (zero when nothing is added) |
| `Growth.DaysUntilFullMeaning` | internal/analysis/growth.go:100-112 | a prediction exists exactly for positive growth and known capacity; it is zero exactly at or over capacity, and otherwise last usage + growth · days = capacity |
| `GrowthInvariance.AnchorInvariance` | internal/analysis/growth.go:56-61 | slope and R² do not depend on which second is the anchor `t0` |
| `GrowthInvariance.ClockInvariance` | internal/analysis/growth.go:57-66 | moving every timestamp by the same number of seconds changes nothing of the result |
| `GrowthInvariance.OrderInvariance` | internal/analysis/growth.go:60-93 | growth and R² do not depend on the order of the samples; the fill prediction only on which one is last |
| `RingBuffers.RingBuffer.constructor` | internal/analysis/ringbuffer.go:33-41 | an empty buffer of at least one slot |
| `RingBuffers.RingBuffer.Push` | internal/analysis/ringbuffer.go:45-53 | the modular write is a push on a queue that keeps its last `capacity` elements |
| `RingBuffers.RingBuffer.Snapshot` | internal/analysis/ringbuffer.go:58-71 | the copied slots are the queue's elements, oldest first |
| `RingBuffers.RingBuffer.Len` | internal/analysis/ringbuffer.go:74-78 | the number of elements of the queue, which never exceeds the capacity |
| `RingBuffers.RingBuffer.Reset` | internal/analysis/ringbuffer.go:83-88 | empties the queue |
| `RingBuffers.OldestAfterWrite` | internal/analysis/ringbuffer.go:48-52 | writing at `head` and moving on keeps the last `capacity` of the old elements and the new one, wrapped around or not |
| `Watcher.PVCWatcher.EnsureState` | internal/controller/pvcwatcher_controller.go:267-284 | creates the state of an unknown key, forgets the samples of a recreated PVC, and leaves all other keys alone |
| `Watcher.PVCWatcher.Reconcile` | internal/controller/pvcwatcher_controller.go:71-139 | one reconcile is one step of the watcher's state machine, for each answer of the API server and of the metrics backend |
| `Watcher.PVCWatcher.BackfillFromRange` | internal/controller/pvcwatcher_controller.go:180-213 | pushes every point in order, or none when the query fails |
| `Watcher.PVCWatcher.Configure` | internal/controller/pvcwatcher_controller.go:288-319 | every buffer is replaced by one of the new retention holding as many of its last samples as fit, whichever order the map is walked in |
| `Watcher.PVCWatcher.GetSnapshot` | internal/controller/pvcwatcher_controller.go:152-160 | the samples of a tracked key, oldest first; nothing for an unknown key |
| `Watcher.PVCWatcher.GetLatestCapacity` | internal/controller/pvcwatcher_controller.go:164-175 | known exactly when a positive capacity was seen |
| `Watcher.PVCWatcher.DeleteState` | internal/controller/pvcwatcher_controller.go:341-345 | forgets the key and nothing else |
| `Watcher.ResizedBuffer` | internal/controller/pvcwatcher_controller.go:309-316 | a new buffer of the given retention holding the end of the old one |
| `WatcherModel.SnapshotsAgreeWithHistory` | internal/controller/pvcwatcher_controller.go:69-319 | over every run of reconciles, backfills, deletions and Configure calls, and for every key: tracked exactly while it exists, under its current UID; the snapshot is a suffix of what was pushed under that UID, no longer than the current retention and no shorter than the smallest retention of the run allows |
| `WatcherModel.ConstantRetention` | internal/controller/pvcwatcher_controller.go:107-111 | while the retention never drops below its final value, a snapshot is exactly the last min(pushes, retention) samples under the current UID |
| `WatcherModel.CapacitySurvivesRecreation` | internal/controller/pvcwatcher_controller.go:88-126 | over every run, a tracked PVC shows the capacity of the last successful query for its name since the name was last deleted, or 0 without one; it is another PVC's capacity exactly when that query was for another UID than the last reconcile or backfill |
| `WatcherModel.SuccessorInherits` | internal/controller/pvcwatcher_controller.go:95-126 | it happens: a PVC recreated under a new UID shows its predecessor's capacity when its own first query fails |
| `WatcherModel.CapacityIsTold` | internal/controller/pvcwatcher_controller.go:113-126 | over every run, the shown capacity is what Prometheus reported in the last successful query, the requested storage where it reported 0, and 0 before the first |
| `WatcherModel.RetentionInForce` | internal/controller/pvcwatcher_controller.go:288-319 | over every run, the retention is the one the last Configure, or else the start, asked for; 720 where that is below 1 |
| `WatcherModel.InheritanceEnds` | internal/controller/pvcwatcher_controller.go:88-126 | an inherited capacity stays until a query succeeds, the name is deleted, or the PVC it was reported for is seen again |
| `WatcherConcurrency.RunsKeepInv` | internal/controller/pvcwatcher_controller.go:88-111 | the invariant of Reconcile and Configure running next to each other holds in every reachable state |
| `WatcherConcurrency.SnapshotsUnderConcurrency` | internal/controller/pvcwatcher_controller.go:267-319 | under every interleaving the buffer a PVC's state refers to holds what the sequential watcher holds after all resizes and a subsequence of the pushes since the PVC got its UID, as `Story` reads them off the actions taken, and misses at most one push per resize |
| `WatcherConcurrency.TracesTellTheStory` | internal/controller/pvcwatcher_controller.go:88-111 | the bookkeeping of the concurrent model is, for every key and run, the pushes and resizes that were really carried out since the key got its UID |
| `WatcherReaders.ReadersUnderConcurrency` | internal/controller/pvcwatcher_controller.go:152-160 | under every interleaving, GetSnapshot included, what it returns is what the sequential watcher holds after all resizes and a subsequence of the pushes of some past, missing at most one push per resize; that past is the whole story of the PVC under one UID up to some moment, or all of it but the resizes right before its last push - also when the buffer is replaced or the PVC deleted after the state was found |
| `WatcherReaders.ReadersAreNeverStuck` | internal/controller/pvcwatcher_controller.go:152-160 | a reader that found a state can always read its buffer field, and copy that buffer |
| `WatcherLosses.EveryResizeCanLoseAPush` | internal/controller/pvcwatcher_controller.go:307-318 | the bound is met for every number of resizes: some run has n resizes, misses n pushes and shows no sample |
| `WatcherConcurrency.ReplayIsSequential` | internal/controller/pvcwatcher_controller.go:107-111 | what the concurrent invariant calls replay is what the sequential watcher does with the same pushes and resizes |
| `Breaker.FastAPIInsightGenerator.RecordFailure` | internal/llm/fastapi_client.go:200-207 | counts the failure and, from the threshold on, moves the end of the cooldown to one cooldown from now |
| `Breaker.FastAPIInsightGenerator.ClearFailures` | internal/llm/fastapi_client.go:209-214 | back to the healthy state |
| `Breaker.FastAPIInsightGenerator.CheckAvailability` | internal/llm/fastapi_client.go:155-177 | available exactly below the threshold, or after the cooldown with a successful probe; which of the three sections ran decides the new state |
| `Breaker.FastAPIInsightGenerator.GenerateInsight` | internal/llm/fastapi_client.go:88-153 | what one call sends and what it does to the breaker, for each outcome of the probe and of the POST |
| `Breaker.EventKeepsDiscipline` | internal/llm/fastapi_client.go:155-214 | every single probe or POST keeps the spacing of probes and the link between the fields and the events sent |
| `Breaker.SingleCaller` | internal/llm/fastapi_client.go:155-214 | with one caller and a clock that does not run backwards: a probe is sent exactly when the failures since the last clear reach the threshold, so no POST before a probe succeeds; a probe is at least one cooldown after every failure of its degraded period |
| `Breaker.NextCall` | internal/llm/fastapi_client.go:88-177 | with one caller, over every run: the next call sends nothing if and only if the failures reach the threshold and the last one is less than a cooldown ago; below the threshold it posts at once; otherwise its first event is a probe, and it posts if and only if that succeeds |
| `BreakerConcurrency.ActionKeepsInv` | internal/llm/fastapi_client.go:155-214 | each atomic section of each caller keeps the invariant |
| `BreakerConcurrency.ConcurrentCallers` | internal/llm/fastapi_client.go:88-91 | with k callers in every interleaving, `degradedUntil` is zero exactly below the threshold and at most threshold + k − 1 POST failures are recorded between two clears |
| `BreakerConcurrency.NextCheck` | internal/llm/fastapi_client.go:155-177 | under every interleaving a caller that looks goes on to its POST, is turned away, or probes by the same rule, read off what was recorded under the mutex |
| `BreakerConcurrency.BoundIsMet` | internal/llm/fastapi_client.go:155-165 | for every threshold and k some run records exactly that many |
| `Notification.Reconcile` | internal/controller/capacityplannotification_controller.go:47-155 | every branch, from a notification that is gone to one that is sent: which outcome, and what the API server has stored afterwards, also when the update fails |
| `Notification.Notify` | internal/controller/capacityplannotification_controller.go:104-155 | behind the gates: the channels are tried, and the attempt is recorded whatever they answered |
| `Notification.Deliver` | internal/controller/capacityplannotification_controller.go:104-123 | the enabled channels and the delivery errors on them; a dry run delivers nothing |
| `Notification.NotificationStore.UpdateStatus` | internal/controller/capacityplannotification_controller.go:148-150 | a successful update stores the status with its time in whole seconds; a failed one stores nothing |
| `Notification.RecordedAreSpaced` | internal/controller/capacityplannotification_controller.go:80-102 | over every run, a recorded notification comes at least its `spec.cooldown`, or half an hour without one, after the stored time of the one before, and with on-change gating and a non-empty hash never repeats its hash |
| `NotificationWaits.NextOutcome` | internal/controller/capacityplannotification_controller.go:80-131 | over every run, in terms of the last recorded notification and the fields of spec and plan: when the next one is NoChange, Cooldown, sent, or without a channel - each if and only if |
| `NotificationWaits.RecordedExactly` | internal/controller/capacityplannotification_controller.go:47-150 | over every run, a notification is recorded if and only if it can be shown, has a channel and a status update that succeeds, its wait is over and its risks are not the same |
| `NotificationWaits.RecordedWaited` | internal/controller/capacityplannotification_controller.go:85-102 | so two in a row are as far apart, and as different, as the later spec asks |
| `NotificationWaits.RecordedStatus` | internal/controller/capacityplannotification_controller.go:104-150 | a recorded one stores the channels tried, is Ready unless one of them failed, and shows each error |
| `NotificationWaits.SkipStatus` | internal/controller/capacityplannotification_controller.go:58-131 | every way not to send leaves its own reason; only NoChange and Cooldown count as Ready |
| `Notification.SendsInWindow` | internal/controller/capacityplannotification_controller.go:96-102 | notifications whose stored times lie within a window number at most window / cooldown + 1 (cooldown in whole seconds) |
| `Notification.WindowBoundIsMet` | internal/controller/capacityplannotification_controller.go:96-134 | that count is reached: for every spec with a channel and no on-change gating, and every n, some run records n + 1 notifications within n cooldowns |
| `Notification.SendsInClockWindow` | internal/controller/capacityplannotification_controller.go:96-134 | counted on the clock, the window has to be widened by less than a second |
| `Notification.SkipsKeepSentFields` | internal/controller/capacityplannotification_controller.go:89-131 | every reconcile that does not record a notification leaves the sent fields as they were |
| `Notification.RunShowsLast` | internal/controller/capacityplannotification_controller.go:133-150 | the stored sent fields are always those of the last recorded notification |
| `Notification.RoundingShortensCooldown` | internal/controller/capacityplannotification_controller.go:133-134 | because the stored time is rounded down, a cooldown can end up to a second early |
| `Notification.CooldownKeptExactly` | internal/controller/capacityplannotification_controller.go:96-150 | for every notification that is sent: whatever comes next is at least its cooldown later, if and only if this one was sent on a whole second and its status update succeeded |
| `Notification.UnrecordedIsRepeated` | internal/controller/capacityplannotification_controller.go:148-150 | a notification whose status update fails is sent again |
| `Notification.DeliveryIsForgotten` | internal/controller/capacityplannotification_controller.go:108-150 | over every run, with other answers of the channels the same reconciles send and the stored sent fields are the same |
| `Notification.UndeliveredIsNotRetried` | internal/controller/capacityplannotification_controller.go:89-142 | over every run, after a notification that some channel could not deliver the same hash is recorded again if and only if on-change gating is off or the hash empty, the cooldown is over, and nothing else stops it |
| `Notification.FailureIsMasked` | internal/controller/capacityplannotification_controller.go:89-142 | the failure shows as Ready=False only until the first reconcile that skips the same risks |
| `RecordStore.Store.Append` | internal/alertreceiver/server.go:45-66 | what the file holds after an append that succeeds or fails at any point |
| `RecordStore.Store.Records` | internal/alertreceiver/server.go:68-102 | no file, no records; a file that cannot be opened or read, or holds a line over the limit, is an error; otherwise blank lines are skipped and those that are no JSON string are returned as they are |
| `RecordRoundTrip.DecodeEncode` | internal/alertreceiver/server.go:46-49 | decoding undoes encoding, up to stray bytes, which become U+FFFD: the payload comes back exactly when it is valid UTF-8 |
| `RecordRoundTrip.LineIsIntact` | internal/alertreceiver/server.go:85-96 | an encoded payload has no raw newline and survives TrimSpace, so its line is its record |
| `RecordRoundTrip.LineSize` | internal/alertreceiver/server.go:83-84 | an encoded payload takes at most 6 · length + 2 bytes |
| `JsonStrings.PayloadIsSpelled` | internal/alertreceiver/server.go:45-60 | a payload is written as a JSON string with one token for each of its units: which units are escaped, and how |
| `JsonStrings.DecodesExactly` | internal/alertreceiver/server.go:88-96 | a line is decoded if and only if it is a JSON string in any of its spellings, escapes of either case and surrogate pairs included, and to the text it stands for; the word null gives no text |
| `JsonStrings.LineIsRecord` | internal/alertreceiver/server.go:86-97 | a line that is not blank is one record: the text it stands for, or itself when it is no JSON string |
| `JsonStrings.LongestText` | internal/alertreceiver/server.go:83-102 | text that needs no escapes is read back if and only if it takes, in UTF-8 and with its quotes, less than 8 MiB |
| `RecordRoundTrip.AppendsReadBack` | internal/alertreceiver/server.go:45-102 | after any successful appends to a new store, Records returns exactly the payloads' texts in order if and only if every line fits the scanner; else it fails |
| `RecordRoundTrip.AcceptedPayloadCanBlockReading` | internal/alertreceiver/server.go:83-84 | 2 MiB of `<` is accepted and makes every later read fail: the headroom does not cover every accepted payload |
| `RecordRoundTrip.TornAppendMerges` | internal/alertreceiver/server.go:59-64 | one instance of a torn append: a failing newline on a new store makes it and the next append one raw record |
| `TornAppends.AppendsReadBackExactly` | internal/alertreceiver/server.go:45-102 | over every sequence of appends to a new store that succeed or fail at any point: Records returns exactly the texts of the successful ones, in order, if and only if each of them fits the scanner and no failing append wrote anything |
| `RiskSignals.SamplesSince` | internal/controller/capacityplan_controller.go:1305-1317 | the samples that are not before the given instant, in order |
| `RiskSignals.BuildSummary` | internal/controller/capacityplan_controller.go:372-493 | the per-PVC summary: capacity from the watcher or else the spec, growth, usage or else the previous one, alert, and the insight, renewed when due |
| `SignalMeanings.SummaryTells` | internal/controller/capacityplan_controller.go:372-493 | a summary is of its PVC and samples: the watcher's capacity before the requested one, the last sample's usage, ratio · capacity = usage; without a capacity no prediction, and an alert only for a threshold of zero or less |
| `CarriedUsage.UsageWithoutSamples` | internal/controller/capacityplan_controller.go:156-411 | over every run with failed status updates and clearings, a PVC without samples shows the usage and time of the last sample that was stored and not cleared, or none |
| `Insights.InsightsAreSpaced` | internal/controller/capacityplan_controller.go:422-475 | over every run with failed status updates and clearings: the LLM is not asked until the interval has passed since the stored time of the last insight that was stored, as long as it was not cleared |
| `Insights.AskedExactly` | internal/controller/capacityplan_controller.go:150-493 | over every run, the LLM is asked if and only if it is there, the PVC qualifies, and the insight that is still stored, if any, is an interval old |
| `Insights.MemoryIsCurrent` | internal/controller/capacityplan_controller.go:330-353 | what the status holds of an insight is the last one that was stored, unless a clearing was stored since |
| `Insights.UnstoredIsAskedAgain` | internal/controller/capacityplan_controller.go:353-355 | an insight whose status update fails is forgotten and asked for again at once |
| `Insights.ClearedIsAskedAgain` | internal/controller/capacityplan_controller.go:1104-1134 | after a plan was inactive, or the PVC out of scope, nothing is left to wait for, however young the last insight is |
| `RiskSignals.AlertMeans` | internal/controller/capacityplan_controller.go:413-421 | an alert fires exactly when usage reaches its share of the capacity, or growth carries it past the capacity within the threshold's days |
| `RiskSignals.DaysCheckIsOffExactly` | internal/controller/capacityplan_controller.go:150-153 | the days check can never fire exactly when the configured threshold is negative; 0 does not turn it off |
| `RiskSignals.DaysThresholdMeans` | internal/controller/capacityplan_controller.go:150-153 | the days check fires exactly when the growth of that many days, or of seven for 0, exceeds the room left |
| `RiskSignals.BuildPVCRiskSignal` | internal/controller/capacityplan_controller.go:1264-1303 | the weekly and daily trends with their fallbacks, the acceleration and the projection |
| `SignalMeanings.TrendsAreOfWindows` | internal/controller/capacityplan_controller.go:1264-1317 | which samples each trend is fitted to: those of the last seven days and of the last 24 hours, and what replaces them where they are fewer than two |
| `SignalMeanings.SignalTells` | internal/controller/capacityplan_controller.go:1264-1344 | a signal repeats its summary's facts; daily = weekly + acceleration · weekly; usage + weekly · days = capacity; the date is that many days of 86 400 seconds from now |
| `FillPredictions.FillPredictionsAgree` | internal/controller/capacityplan_controller.go:1264-1337 | when the weekly window holds every sample, or fewer than two, or all fall in one second, the risk signal has the growth, confidence and days until full of the summary |
| `FillPredictions.FillPredictionsCanDisagree` | internal/controller/capacityplan_controller.go:1265-1268 | for all other instants, a byte written when the window opens makes the summary predict a day and the risk signal none |
| `FillPredictions.FillPredictionsAgreeExactly` | internal/controller/capacityplan_controller.go:396-410 | so the two predictions are the same for all usages and capacities if and only if the instants of sampling are of the first kind |
| `RiskSignals.ProjectedNotBeforeNow` | internal/controller/capacityplan_controller.go:1319-1337 | a date is projected exactly with a prediction, and is not before now if and only if the wait fits a 64-bit count of nanoseconds |
| `Anomalies.DetectPVCAnomalies` | internal/controller/capacityplan_controller.go:1939-1982 | the anomalies of every signal, sorted by severity, PVC and type |
| `AnomalyRules.AnomaliesByRule` | internal/controller/capacityplan_controller.go:1939-2006 | for the signals of a reconcile there is an anomaly of a kind if and only if its rule holds of the trends (daily at least 1.75 or 2.5 times the weekly growth, more than 10 or 100 MiB a day, 0 < R² < 0.35), with that signal's figures, owner and severity |
| `AnomalyRules.AnomaliesAreListed` | internal/controller/capacityplan_controller.go:1967-1981 | critical anomalies first, then namespace, name and type in dictionary order |
| `Anomalies.SuddenGrowthIsCriticalSpike` | internal/controller/capacityplan_controller.go:1943-1966 | a PVC flagged `sudden_growth` is also flagged a critical `acceleration_spike` |
| `Anomalies.YoungPVCIsCalm` | internal/controller/capacityplan_controller.go:1264-1303 | a PVC whose samples are all from the last day has zero acceleration and neither growth flag |
| `Anomalies.AnomaliesDetermined` | internal/controller/capacityplan_controller.go:1967-1981 | for distinct PVCs there is at most one anomaly per PVC and type, and only one order the unstable sort can produce |
| `Anomalies.TypeRankIsByName` | internal/controller/capacityplan_controller.go:1980-1980 | comparing the types as the model does is comparing their names |
| `Ordering.SortSlice` | internal/controller/capacityplan_controller.go:1356-1376 | what a caller may rely on after `sort.Slice`: the same elements, none before one that should precede it |
| `Ordering.SortUnique` | internal/controller/capacityplan_controller.go:1356-1376 | an unstable sort has one outcome when its comparator separates the elements |
| `Ranking.BuildTopRisks` | internal/controller/capacityplan_controller.go:1346-1396 | the positive-growth signals, ranked, the first N kept |
| `Ranking.TopRisksAreTheFastest` | internal/controller/capacityplan_controller.go:1346-1396 | the result lists the fastest-growing PVCs, ties by soonest full; anything growing that is left out is matched or beaten by every one of a full list |
| `ShownRisks.TopRisksTell` | internal/controller/capacityplan_controller.go:1346-1396 | every top risk repeats all facts of one growing signal; they are as many as asked for or three, by growth, days, namespace and name; a growing signal that is not among them would be listed behind all of them |
| `Ranking.TopRisksDetermined` | internal/controller/capacityplan_controller.go:1356-1376 | for distinct PVCs the result does not depend on the order of the signals |
| `Ranking.BuildStatusSummary` | internal/controller/capacityplan_controller.go:1160-1231 | the counts and the three leaderboards |
| `Ranking.BoardsShowTheExtremes` | internal/controller/capacityplan_controller.go:1175-1228 | the boards show the fullest, the soonest full and the fastest growing PVCs in order, and nothing left out would come before anything shown |
| `ShownRisks.BoardsTell` | internal/controller/capacityplan_controller.go:1160-1231 | the counts of PVCs and of alerts; each board repeats the facts of PVCs, as many as asked for or three, by its measure and then by namespace and name |
| `Ranking.StatusSummaryDetermined` | internal/controller/capacityplan_controller.go:1160-1231 | for distinct PVCs the status summary does not depend on the order of the PVCs |
| `ActivePlan.PickActivePlan` | internal/controller/capacityplan_controller.go:1143-1158 | nothing exactly for no plans; otherwise a plan of the list that no other precedes |
| `ActivePlan.IsActivePlan` | internal/controller/capacityplan_controller.go:1091-1102 | compares with the oldest plan's name; an empty list makes any plan active, a failed list none |
| `ActivePlan.OldestMeans` | internal/controller/capacityplan_controller.go:1149-1156 | the plan picked was created first, and has the first name among those of the same second |
| `ActivePlan.ExactlyOneActive` | internal/controller/capacityplan_controller.go:1096-1101 | while there are plans, exactly one of them finds itself active |
| `ActivePlan.StaysActiveWhileNotUnseated` | internal/controller/capacityplan_controller.go:1143-1158 | over any run of creations and deletions the active plan stays active if and only if none of them deletes it or creates one that sorts before it |
| `ActivePlan.SameSecondTakesOver` | internal/controller/capacityplan_controller.go:1150-1155 | a plan created in the same second can take over by its name |
| `RiskChanges.DetectRiskChanges` | internal/controller/capacityplan_controller.go:1433-1501 | one change for each new, escalated or recovered key and nothing else, sorted, whatever order the maps are walked in |
| `RiskChanges.ReportMeans` | internal/controller/capacityplan_controller.go:1448-1514 | for every key: new exactly when only in the current set, recovered exactly when only in the previous, escalated exactly when in both and grown by more than a fifth, full more than a day earlier, or newly firing |
| `ChangeMeanings.ChangesTellTheRisks` | internal/controller/capacityplan_controller.go:1448-1534 | every change carries the growth and date of both lists, and its reason is true of them: earlier date first, then growth, then the alert |
| `ChangeMeanings.EscalatedExactly` | internal/controller/capacityplan_controller.go:1448-1514 | a PVC on both lists is in the report if and only if it grows more than a fifth faster from a positive growth, is full more than 24 hours earlier, or its alert started firing |
| `ChangeMeanings.IndexIsLast` | internal/controller/capacityplan_controller.go:1438-1445 | a key stands for the last risk listed under it |
| `ChangeMeanings.ChangesAreListed` | internal/controller/capacityplan_controller.go:1490-1500 | changes are listed by type name, namespace and name in dictionary order |
| `RiskChanges.ReportDetermined` | internal/controller/capacityplan_controller.go:1490-1500 | the report is the same for every iteration order of the maps |
| `RiskChanges.ChangesReplay` | internal/controller/capacityplan_controller.go:133-353 | over any run of active and inactive reconciles, with failed status updates: applying the stored changes in turn gives the stored top risks |
| `RiskChanges.RefreshRisks` | internal/controller/capacityplan_controller.go:133-353 | an active reconcile reports the changes against the risks the status holds and stores the new risks together with them; nothing is stored when the update fails |
| `RiskChanges.MarkPlanInactive` | internal/controller/capacityplan_controller.go:1104-1134 | a plan that is not the active one gets its risks and changes cleared, unless the update fails |
| `RiskChanges.PlanStore.UpdateStatus` | internal/controller/capacityplan_controller.go:353-355 | a successful update stores risks and changes with their times in whole seconds; a failed one stores nothing |
| `ChangeMeanings.StoredRisksTell` | internal/controller/capacityplan_controller.go:353-355 | what is stored of a risk is the risk itself with its date cut to the second |
| `ChangeMeanings.StoredChangesTell` | internal/controller/capacityplan_controller.go:353-355 | and of a change the change itself with its dates and time cut to the second |
| `RiskChanges.EscalationReasonHolds` | internal/controller/capacityplan_controller.go:1503-1534 | the message of an escalation is true of the growths, dates and alerts of the pair |
| `RiskChanges.EscalationHasDirection` | internal/controller/capacityplan_controller.go:1503-1514 | two risks cannot be escalations of each other for the same reason |
| `RiskChanges.TypeRankIsByName` | internal/controller/capacityplan_controller.go:1491-1493 | comparing the types as the model does is comparing their names |
| `RiskSnapshot.ComputeRiskSnapshotText` | internal/controller/capacityplan_controller.go:1556-1576 | the hashed text is one line per risk in the sorted order; empty exactly for no risks |
| `RiskSnapshot.SnapshotTextInjective` | internal/controller/capacityplan_controller.go:1556-1579 | equal texts show the same risks: namespace, name, growth and acceleration to six decimals, alert flag, projected second |
| `RiskSnapshot.SnapshotTextCanonical` | internal/controller/capacityplan_controller.go:1556-1579 | for distinct PVCs texts are equal if and only if the same risks are shown |
| `SnapshotMeanings.SnapshotChangesExactly` | internal/controller/capacityplan_controller.go:1556-1579 | for distinct PVCs the text changes if and only if some risk differs in its PVC, in six decimals of weekly growth or acceleration, in its alert or in the second of its date |
| `RiskSnapshot.SnapshotIgnoresOrder` | internal/controller/capacityplan_controller.go:1560-1567 | the text does not depend on the order of the top risks |
| `Decimals.DecimalInjective` | internal/controller/capacityplan_controller.go:1570-1571 | `%f` text determines the sign and the millionths |
| `Decimals.SameTextIsClose` | internal/controller/capacityplan_controller.go:1570-1571 | numbers with the same `%f` text are at most a millionth apart |
| `Calendar.Rfc3339Injective` | internal/controller/capacityplan_controller.go:1572-1574 | different seconds have different RFC 3339 texts |
| `Calendar.DateOfCounts` | internal/controller/capacityplan_controller.go:1572-1574 | the calendar walked day by day agrees with counting whole years and months |
| `Budgets.BuildBudgetForecasts` | internal/controller/capacityplan_controller.go:1789-1888 | a forecast for every budget that is not skipped, with the usage and growth of the PVCs it covers, soonest breach first |
| `Budgets.NamespaceUsage` | internal/controller/capacityplan_controller.go:1808-1816 | the sums, over all items of the namespace, of their bytes and of their signals' weekly growth |
| `Budgets.WorkloadUsage` | internal/controller/capacityplan_controller.go:1846-1862 | the same sums over the PVCs whose owner has the budget's namespace and name, and its kind up to case |
| `Budgets.EqualFoldMeans` | internal/controller/capacityplan_controller.go:1854-1856 | kinds are equal exactly when they are letter by letter, without regard to case |
| `Budgets.BreachMeaning` | internal/controller/capacityplan_controller.go:1898-1916 | zero days exactly for a spent budget, none exactly for an unspent one that does not grow, otherwise used + growth · days = budget |
| `Budgets.BreachIsFirst` | internal/controller/capacityplan_controller.go:1898-1916 | before the predicted day the budget is not reached |
| `Budgets.BreachNotBeforeNow` | internal/controller/capacityplan_controller.go:1898-1916 | a breach is dated exactly when it is predicted, and not before now if and only if the wait fits a 64-bit count of nanoseconds |
| `BudgetTotals.ForecastsTellTheSums` | internal/controller/capacityplan_controller.go:1789-1916 | one forecast for each budget that is not skipped; its usage and growth are the sums over exactly the PVCs of its namespace or workload, and its days and date are when these reach the budget |
| `BudgetTotals.NamespacesAddUpToAll` | internal/controller/capacityplan_controller.go:1799-1836 | when every PVC's namespace has one budget, the forecasts add up to all the bytes in use |
| `BudgetTotals.WorkloadsAddUpToAll` | internal/controller/capacityplan_controller.go:1838-1879 | when every PVC has an owner with one budget, so do the workload forecasts |
| `BudgetTotals.ForecastsAreListed` | internal/controller/capacityplan_controller.go:1918-1937 | forecasts are listed by days, and then by namespace, kind and name in dictionary order |
| `BudgetConservation.ForecastsAddUp` | internal/controller/capacityplan_controller.go:1808-1862 | forecasts with different targets add up to exactly the sum of the bytes of the PVCs that some of them covers |
| `BudgetConservation.NamespacesWithinTotal` | internal/controller/capacityplan_controller.go:1799-1836 | forecasts of different namespaces never exceed the total usage |
| `BudgetConservation.WorkloadsWithinNamespace` | internal/controller/capacityplan_controller.go:1838-1879 | forecasts of different workloads of a namespace never exceed that namespace's usage |
| `BudgetConservation.BudgetConservation` | internal/controller/capacityplan_controller.go:1799-1879 | in one reconcile the workload forecasts of a namespace never exceed its own forecast |
| `BudgetConservation.ForecastsReachBudget` | internal/controller/capacityplan_controller.go:1789-1916 | every forecast of a reconcile is right about when its budget is reached |
| `BudgetConservation.SoonestBreachFirst` | internal/controller/capacityplan_controller.go:1918-1937 | budgets reached sooner are listed first, those never reached last |
| `BudgetConservation.BudgetOrderIrrelevant` | internal/controller/capacityplan_controller.go:1881-1886 | budgets with different targets are forecast in the same order however they are listed |
| `LLMCache.CapacityPlanReconciler.ResolvePlanLLMClient` | internal/controller/capacityplan_controller.go:829-857 | disabled, failed, cached or newly built; only a newly built client changes the cache |
| `LLMCacheKeys.KeyInjective` | internal/controller/capacityplan_controller.go:886-922 | cache keys are equal only for equal identities, unless a text holds a bar and the name of the part that comes after it |
| `LLMCacheRuns.IdentityDeterminesConfig` | internal/controller/capacityplan_controller.go:859-1044 | equal identities mean equal configurations, secret values included, when a Secret's resourceVersion determines its data |
| `LLMCacheRuns.ClientIsCurrent` | internal/controller/capacityplan_controller.go:829-1089 | over any run, the client a plan gets was built from the plan's present configuration, up to the temperature's digits after the sixth |
| `LLMClients.BuiltUsesPlan` | internal/controller/capacityplan_controller.go:859-1052 | a configuration is built if and only if it is the one with the provider, model, timeout, token limit, temperature, URLs and trimmed Secret value that the spec names, with their defaults |
| `LLMClients.ClientUsesPlan` | internal/controller/capacityplan_controller.go:829-1060 | over every run with unambiguous texts, the client a plan gets was built from those fields of its own spec and Secret; no client exactly for no provider; an error only when the spec cannot be used or the provider refuses |
| `LLMCacheRuns.ClientIsReused` | internal/controller/capacityplan_controller.go:841-857 | a plan that asks for the same again gets the same client and nothing is built |
| `OllamaKeys.BarsConfuse` | internal/controller/capacityplan_controller.go:841-922 | a request whose model and URL imitate parts of the key can be handed the client built for another model and URL |
| `OllamaKeys.KeyIsSharedExactly` | internal/controller/capacityplan_controller.go:859-922 | an Ollama plan shares its cache key with a plan configured otherwise if and only if its model or its URL holds a complete imitation of the parts that stand between the two |
| `OllamaKeys.WrongClientExactly` | internal/controller/capacityplan_controller.go:841-922 | the same condition says exactly when some run of requests hands an Ollama plan a client that is configured otherwise |
| `OllamaKeys.OllamaIdentities` | internal/controller/capacityplan_controller.go:859-922 | the identities that Ollama specs lead to: a positive timeout and token limit, and a model and URL without surrounding space |
| `Durations.DurationTextInjective` | internal/controller/capacityplan_controller.go:889-889 | different durations have different texts |
| `Keys.SplitKey` | internal/controller/pvcwatcher_controller.go:370-378 | cuts a key at its first slash |
| `Keys.KeyInjective` | internal/controller/pvcwatcher_controller.go:73-73 | for namespaces without a slash, different PVCs have different keys, and the key can be cut apart again |

## Left out

- `float64` rounding, NaN, infinities and negative zero; overflow of `int64` sums.
- Races of the Go memory model, such as the unlocked write of `LastCapacityBytes`: each access to a field is one atomic step. The concurrent watcher tracks samples, not capacities.
- WatcherReaders.ReadersUnderConcurrency: does not interleave BackfillFromRange, which runs at start-up before the controllers (`cmd/main.go:148`).
- BackfillAllPVCs, AllKeys and the exchange of the metrics client: loops and field copies around what is modelled.
- Prometheus gauges, conditions' messages, risk digests, LLM prompts and texts, Grafana and PrometheusRule bodies: text without a property of its own.
- SHA-256: RiskSnapshot stops at the text that is hashed. computeBudgetForecastHash, which serialises forecasts in the same way, and shouldRefresh, which compares it, are not modelled.
- Resolving a PVC's owning workload from pods: the map from PVC to workload is an input.
- Parsing of quantities and of the usage threshold: the parsed value, or that there is none, is an input.
- Budgets.WorkloadUsage: kinds are folded like `strings.EqualFold` does for ASCII letters and the two other characters that fold to them; further Unicode case pairs are not.
- RiskSignals.ProjectedNotBeforeNow: a wait that does not fit 64 bits converts as on amd64.
- Notification.SendsInWindow: counts on stored times, with the whole seconds of the cooldown; Notification.WindowBoundIsMet shows that no better count holds.
- RecordStore.Store.Records: lines that other programs wrote into the file are taken to be valid UTF-8.
- LLMCacheKeys.KeyInjective: `Unambiguous` is sufficient, not necessary: an imitated part alone does not make two keys meet. The exact condition is proved for Ollama only (OllamaKeys.KeyIsSharedExactly).
- LLMCache.CapacityPlanReconciler.ResolvePlanLLMClient: whether a provider's constructor accepts a configuration is an input; the errors' texts are not modelled.
