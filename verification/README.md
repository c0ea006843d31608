# Wharfinger: verified model of its core

Wharfinger is a status page, deploy hub and edge proxy with an agent on every host. This project
models the parts of it whose behaviour spans many calls, and proves what each is for. Verify
it with `dafny verify dfyconfig.toml` (Dafny 4.11).

Each file is one module and one component:

- `GlobFilter` (with `Regex`): monorepo path filters are compiled to the text of a regular
  expression, which is parsed and matched; the text means what the filter is documented to mean.
- `StableJson`, `ConfigOverlay`: the canonical printer behind section comparison, and the two ways
  the hub builds a merged configuration document.
- `Singleflight`, `Limiter`, `Wildcard`: the edge proxy's certificate issuance under any number of
  concurrent handshakes, its rate limiter, and the choice of certificate and route.
- `Scrub`: redaction of secret values from a log stream cut into arbitrary writes.
- `Ewma`, `Anomaly`: anomaly detection; what the incremental baseline computes, and which rows and
  alerts any run produces.
- `Deploy`: the zero-gap swap on containers and on Kubernetes, with a crash between any two effects
  and the report made after a restart.
- `Delivery`: samples between the collection loop, the bounded queue and the one post in flight.
- `Audit`: the hash chain of the audit log under overlapping writers and pruning.
- `Base32`, `Maintenance`: a codec on a wrapping 32-bit accumulator, and the expansion of weekly
  windows.
- `Firewall`, `Packets`: a firewall plan that can be interrupted, resumed and reverted, and what its
  rules do to a packet.
- `Strings`, `Options`: what several of them use.

Code that changes state in steps is modelled by classes and methods, each proved equal to a function
of its old state; what the source promises is then proved of that function, over all runs where
runs matter. Concurrent parts are step systems in which every interleaving is a run. Outcomes the
code does not control (commands, replies, clocks, random numbers, file writes) are parameters.

Where the code and its documentation differ, the model follows the code:

- A filter ending in `**` is documented as matching anything below; its `.*` stops at a line
  terminator (`DocumentedOnAllPaths`).
- A save that clears an override validates a document without the section, although the file's
  section comes back into force (`ClearValidatesAppliedDoc`).
- A failed deploy always reports the previous container as kept; a container of the same name is
  removed before the new one is healthy (`ZeroGapIffOtherName`).
- A journal write that fails is logged as costing only fidelity; it can make a restarted agent
  report failure after the previous container was stopped (`MisreportedIffStopUnwritten`).
- Rows of one metric are meant to be one open row at a time, rising in severity; that needs times in
  order (`EarlierTimeBreaksEscalation`, `FreshRowsEscalateIff`).
- A prune is meant to keep the newest rows of a log that still verifies; that needs no tie in time at
  the cut (`PruneVerifiesIffNoTieAtCut`).
- The firewall fix is documented to drop new connections towards private space that no rule claimed;
  its drops are appended, so a return at the end of the chain's own rules claims everything
  (`OpeningDroppedIff`, `ReturnHidesDrops`).
- A requeued backlog is documented to keep its order; it lands behind what was left in the queue
  (`RequeueOrder`).

## Model

| member | source | states |
|---|---|---|
| `GlobFilter.CompilePattern` | src/lib/server/deploy/hook.ts:178-190 | the loop over segments builds exactly the pattern text that the parsing results below are about |
| `GlobFilter.PatternParses` | src/lib/server/deploy/hook.ts:180-191 | `new RegExp` accepts every pattern the compiler builds, and reads it as the filter's expression |
| `GlobFilter.FilterReMeans` | src/lib/server/deploy/hook.ts:178-191 | that expression accepts a path exactly when the filter's segments match the path's: `*` inside one segment, a middle `**` for zero or more non-empty segments, a final `**` for a rest without line terminators |
| `GlobFilter.GlobMatch` | src/lib/server/deploy/hook.ts:174-192 | true exactly when the filter accepts the path, with or without a wildcard |
| `GlobFilter.PlainFilterMeans` | src/lib/server/deploy/hook.ts:164-165 | a filter without wildcards accepts its own path and everything below it as a directory, stated on segments |
| `GlobFilter.AcceptsAsDocumented` | src/lib/server/deploy/hook.ts:164-167 | on every path without line terminators a filter does exactly what its documentation says |
| `GlobFilter.DocumentedOnAllPaths` | src/lib/server/deploy/hook.ts:164-192 | on all paths it does so exactly when its last segment is not `**` |
| `GlobFilter.NewlineBelowRejected` | src/lib/server/deploy/hook.ts:186 | a concrete path, for every filter ending in `**`, that is documented to match and does not |
| `GlobFilter.PathsMatch` | src/lib/server/deploy/hook.ts:169-172 | deploys exactly when no path was touched or some filter accepts some touched path |
| `StableJson.Injective` | src/lib/server/config/effective.ts:7-13 | the printer is uniquely readable: equal texts, followed by anything a value can be followed by, come from equal values and equal rests |
| `StableJson.SortSorts` | src/lib/server/config/effective.ts:11 | sorting the keys yields an ordered permutation of the entries |
| `StableJson.SortedUnique` | src/lib/server/config/effective.ts:11 | there is only one ordered arrangement of entries with distinct keys |
| `StableJson.SamePrintsAlike` | src/lib/server/config/effective.ts:7-13 | values equal up to member order print the same text |
| `StableJson.SectionsEqualIsSameValue` | src/lib/server/config/effective.ts:15-17 | `sectionsEqual` holds exactly for values equal with object key order ignored, and for two absent ones |
| `ConfigOverlay.NoPlaceholderNoChange` | src/lib/server/config/load.ts:13-30 | a string without `${` is left as it is and misses nothing |
| `ConfigOverlay.DefaultRefExpands` | src/lib/server/config/load.ts:12-30 | `${NAME:-default}` becomes the variable if it is set and not empty and the default otherwise, and is never missing; the rest is expanded on its own |
| `ConfigOverlay.BareRefExpands` | src/lib/server/config/load.ts:12-30 | `${NAME}` becomes the variable if it is set, even to nothing; otherwise it stays and its name is reported missing |
| `ConfigOverlay.OtherTextStays` | src/lib/server/config/load.ts:12-30 | a character at which no reference of these two forms begins is copied |
| `ConfigOverlay.InterpolateEnv` | src/lib/server/config/load.ts:20-38 | the recursive expansion, with the missing names pushed in order onto the caller's list |
| `ConfigOverlay.InterpolateTrusted` | src/lib/server/config/load.ts:71-80 | fails exactly when some variable is missing, and otherwise yields the expanded document key by key |
| `ConfigOverlay.InheritFileInterpolation` | src/lib/server/config/effective.ts:70-99 | objects and arrays filled in loops hold the override with the file's placeholders resolved |
| `ConfigOverlay.OnlyFilePlaceholdersExpand` | src/lib/server/config/effective.ts:61-99 | at every path, only a leaf identical to the file's own placeholder there takes an environment-derived value; every other leaf stays literal and no path appears or goes |
| `ConfigOverlay.EqualOverrideIsNeutral` | src/lib/server/config/effective.ts:70-99 | an override equal to the file's section resolves to what the file itself resolves to |
| `ConfigOverlay.EqualOverrideLeavesDoc` | src/lib/server/config/effective.ts:107-119 | storing an override equal to the file's section leaves the merged document unchanged, up to member order |
| `ConfigOverlay.ValidateMergedDoc` | src/lib/server/config/effective.ts:107-119 | builds the effective document, whatever order the overrides are listed in |
| `ConfigOverlay.ValidateMerged` | src/lib/server/config/effective.ts:143-160 | builds the candidate document: every other override, and the value in its section or no section at all |
| `ConfigOverlay.PlanMeans` | src/lib/server/config/effective.ts:121-137 | a save is stored exactly if its value differs from the file's, up to member order; otherwise it clears an override or does nothing |
| `ConfigOverlay.StoreValidatesAppliedDoc` | src/lib/server/config/effective.ts:126-160 | for a store plan the document validated is the one applied afterwards |
| `ConfigOverlay.NoopValidatesCurrentDoc` | src/lib/server/config/effective.ts:126-160 | for a no-op plan it is the one already in force, up to member order |
| `ConfigOverlay.ClearValidatesAppliedDoc` | src/lib/server/admin/config-actions.ts:59-64 | for a clear plan the two agree exactly when the file has no such section |
| `ConfigOverlay.ClearMayMissTheSection` | src/lib/server/admin/config-actions.ts:59-64 | and they do disagree whenever an overridden section is saved as the file has it |
| `ConfigOverlay.ConfigPanel.SaveSectionValue` | src/lib/server/admin/config-actions.ts:42-78 | a refused save changes nothing, nor does one of an undefined value that the store cannot write; an applied one stores what its plan says, and after a store the runtime's check holds on the reloaded document |
| `Singleflight.CertManager.BeginObtain` | agent/internal/edge/acme.go:298-310 | joins a running flight, refuses inside the back-off window, or registers a new flight |
| `Singleflight.CertManager.EndObtain` | agent/internal/edge/acme.go:316-323 | removes the flight and sets or clears the retry deadline |
| `Singleflight.StepKeepsFlights` | agent/internal/edge/acme.go:297-328 | every step of any caller keeps leaders registered, outcomes agreed and waiters served |
| `Singleflight.OutcomesAreFinal` | agent/internal/edge/acme.go:312-315 | `doObtain` returns once per flight: its outcome never changes |
| `Singleflight.CallsKeepTheirFlight` | agent/internal/edge/acme.go:299-302 | a call stays with the flight it joined or started |
| `Singleflight.OneObtainPerName` | agent/internal/edge/acme.go:295-297 | in every run at most one `doObtain` per name is running |
| `Singleflight.JoinersGetTheirFlight` | agent/internal/edge/acme.go:299-302 | every call that returned carries its own flight's result, and one still waiting can be woken or its leader is still under way |
| `Singleflight.NoStartInsideBackoff` | agent/internal/edge/acme.go:304-323 | after a failure no `doObtain` starts for that name before a deadline set since then has passed, at least five minutes after the failure |
| `Singleflight.ArrivalDecided` | agent/internal/edge/acme.go:298-310 | in every run: an arriving call is refused exactly while a logged deadline of its name lies ahead, waits exactly if a flight is on, and otherwise starts one |
| `Singleflight.RefusalEnds` | agent/internal/edge/acme.go:304-319 | six minutes after the last failure of a name no call for it is refused |
| `Limiter.RateLimiter.Allow` | agent/internal/edge/waf.go:138-160 | one request, with the sweep a new key triggers on a full map |
| `Limiter.RateLimiter.Sweep` | agent/internal/edge/waf.go:164-171 | keeps exactly the buckets that have not refilled, in any visiting order |
| `Limiter.AllowTracks` | agent/internal/edge/waf.go:138-171 | one request gets the same answer from the sweeping and the never-evicting limiter, and they stay in step |
| `Limiter.SweepChangesNoAnswer` | agent/internal/edge/waf.go:138-171 | over every run with non-decreasing times the two give the same answers |
| `Limiter.AdmittedInWindow` | agent/internal/edge/waf.go:138-171 | in every window a key gets at most burst + rate * (t2 - t1) requests, across sweeps and re-created buckets |
| `Limiter.RefusedIffTooMany` | agent/internal/edge/waf.go:138-171 | over every run from the empty map a request is refused exactly if, since some time, its key's admitted requests and itself exceed burst + rate * elapsed |
| `Limiter.SweepDropsTheFull` | agent/internal/edge/waf.go:162-171 | a sweep drops exactly the keys that could spend the whole burst |
| `Limiter.RefillPerSecond` | agent/internal/edge/waf.go:150 | tokens come in at the rate by the second |
| `Wildcard.CoversMeans` | agent/internal/edge/acme.go:231-237 | a wildcard covers exactly the hosts with something, dots included, before its domain |
| `Wildcard.CertManager.EntryFor` | agent/internal/edge/acme.go:224-243 | the exact name, or the best of some visiting order of the map; the intended choice unless a covering name is one shorter than the longest |
| `Wildcard.OrderIrrelevantIffNoNearMiss` | agent/internal/edge/acme.go:231-241 | every visiting order gives the exact or longest certificate exactly when no covering name is one character shorter than the longest |
| `Wildcard.NearMissNeedsEmptyLabel` | agent/internal/edge/acme.go:235-238 | that can only happen for a host with an empty label |
| `Wildcard.NearMissHappens` | agent/internal/edge/acme.go:235-238 | an instance: names `*.` and `*..` for the host `a..` |
| `Wildcard.Lookup` | agent/internal/edge/types.go:53-73 | the first exact route, or else the first of the longest covering wildcards |
| `Wildcard.LookupAgreesWithEntryFor` | agent/internal/edge/types.go:50-80 | on lower-case names the route choice meets the same specification as the certificate choice |
| `Scrub.SecretNeedles` | agent/internal/deploy/scrub.go:20-28 | tracks exactly the values of at least four bytes |
| `Scrub.ScrubWriter.Write` | agent/internal/deploy/scrub.go:40-57 | emits the scrubbed complete lines and keeps the partial one, or gives up on one over the limit |
| `Scrub.ScrubWriter.Emit` | agent/internal/deploy/scrub.go:59-64 | appends the line with every needle replaced in turn |
| `Scrub.ScrubWriter.Flush` | agent/internal/deploy/scrub.go:67-72 | emits what is pending and empties the buffer |
| `Scrub.ChunkingDoesNotShow` | agent/internal/deploy/scrub.go:30-57 | however a stream of short lines is cut into writes, the output is the line-by-line scrub of the whole |
| `Scrub.ChunkingInvisibleIffShortLines` | agent/internal/deploy/scrub.go:13-15 | that holds for all values and all cuts exactly when every line is within the limit |
| `Scrub.ReplaceCreatesNothing` | agent/internal/deploy/scrub.go:59-62 | a replacement neither leaves its own value nor creates another one that has no `*` |
| `Scrub.ReplacedAtFirst` | agent/internal/deploy/scrub.go:59-62 | text before the first occurrence stays, the occurrence becomes the mark, and the rest is replaced on its own |
| `Scrub.CleanTextPasses` | agent/internal/deploy/scrub.go:30-72 | a stream in which no tracked value occurs comes out as it went in, however it is cut and however long its lines |
| `Scrub.ScrubbedLineClean` | agent/internal/deploy/scrub.go:59-64 | a scrubbed line is free of every tracked value without `*` and without a newline before its last byte, in whatever order the values are replaced |
| `Scrub.NoTrackedValueSurvives` | agent/internal/deploy/scrub.go:30-32 | no such value occurs anywhere in the scrubbed stream, across line ends included |
| `Scrub.NoTrackedValueWritten` | agent/internal/deploy/scrub.go:30-57 | nor in what a session of writes and a flush puts out |
| `Scrub.KeptOutIffNoInnerNewline` | agent/internal/deploy/scrub.go:30-64 | a tracked value without `*` is kept out of every stream exactly when it has no newline before its last byte |
| `Ewma.WeightsSumToOne` | src/lib/server/anomaly/engine.ts:97-105 | the weights of any history sum to one |
| `Ewma.AverageStep` | src/lib/server/anomaly/engine.ts:97-105 | averaging one more value mixes it with the average so far, for any function of a value |
| `Ewma.BaselineIsWeighted` | src/lib/server/anomaly/engine.ts:96-105 | after any history, for any alpha, the incremental mean and variance are exactly the weighted mean and variance |
| `Ewma.VarianceBounded` | src/lib/server/anomaly/engine.ts:96-105 | for values in [lo, hi] and alpha in [0, 1]: 0 <= variance <= (hi - mean)(mean - lo) |
| `Anomaly.ClassifiedByDeviation` | src/lib/server/anomaly/engine.ts:108-146 | the severity in terms of the squared deviation: thirty samples, three and four standard deviations, and the upper tail only for spike metrics |
| `Anomaly.OwnRatesAreOneSided` | src/lib/server/anomaly/engine.ts:465-511 | the rates the engine feeds itself count upwards only |
| `Anomaly.NoSpikeWord` | src/lib/server/anomaly/engine.ts:118-127 | a metric without an r or s counts both ways |
| `Anomaly.AnomalyEngine.Observe` | src/lib/server/anomaly/engine.ts:202-271 | one observation: what is dropped, the baseline folded in, the row written and the alert sent |
| `Anomaly.AnomalyEngine.AdmitBaseline` | src/lib/server/anomaly/engine.ts:275-286 | a new metric is admitted while the table holds fewer than two thousand |
| `Anomaly.AnomalyEngine.MaybeAlert` | src/lib/server/anomaly/engine.ts:288-303 | sends at most one alert per cooldown, dropping cooled-down entries once there are many |
| `Anomaly.AnomalyEngine.Ack` | src/lib/server/anomaly/engine.ts:351-362 | acknowledges an open row, leaves an acknowledged one as it was, and returns the row if there is one |
| `Anomaly.AckTouchesItsRow` | src/lib/server/anomaly/engine.ts:351-362 | every other row and every acknowledged one stays as it is; the open one only gains the time and the user, cut to 100 characters |
| `Anomaly.AnomalyEngine.Prune` | src/lib/server/anomaly/engine.ts:422-428 | deletes the older rows and counts them |
| `Anomaly.KeptIffRecent` | src/lib/server/anomaly/engine.ts:422-428 | pruning drops exactly the rows older than the cut |
| `Anomaly.KeptByPosition` | src/lib/server/anomaly/engine.ts:422-428 | and keeps the others in order |
| `Anomaly.OpenRowsEscalate` | src/lib/server/anomaly/engine.ts:236-253 | over every run with non-decreasing observation times, open rows of one metric less than a cooldown apart rise strictly in severity, so no three lie within one cooldown |
| `Anomaly.FreshRowsEscalateIff` | src/lib/server/anomaly/engine.ts:236-248 | for any times: every row that is not suppressed keeps an escalating table escalating exactly when no open row outranks the newest open one |
| `Anomaly.RowWrittenIff` | src/lib/server/anomaly/engine.ts:202-253 | an observation of a known metric writes a row exactly if the baseline has thirty samples, the value deviates by three standard deviations (upwards for a spike metric), and every open row of the metric ranks lower |
| `Anomaly.RowSaysWhatWasSeen` | src/lib/server/anomaly/engine.ts:214-253 | and the row holds a new id, the mean it was compared with, the deviation in floored standard deviations, and the detail cut to 4096 characters |
| `Anomaly.OrderedNewestRanksHighest` | src/lib/server/anomaly/engine.ts:236-248 | which is so in every table in order of time |
| `Anomaly.EarlierTimeBreaksEscalation` | src/lib/server/anomaly/engine.ts:240-248 | a run of thirty-three observations, the last one stamped just before the one ahead of it, that leaves two open alerts less than a cooldown apart |
| `Anomaly.AlertsCoolDown` | src/lib/server/anomaly/engine.ts:288-303 | alerts of one metric are at least a cooldown apart, with or without eviction |
| `Anomaly.AlertSentIff` | src/lib/server/anomaly/engine.ts:288-303 | after every run in order of time, an observation sends an alert exactly if it records an alert row, a hook is wired, and no alert of the metric was sent within the cooldown |
| `Anomaly.EvictionChangesNothing` | src/lib/server/anomaly/engine.ts:290-294 | dropping cooled-down entries changes neither a row, an alert nor a baseline in any run |
| `Anomaly.BaselinesFollowHistory` | src/lib/server/anomaly/engine.ts:209-232 | in every run each tracked metric holds the baseline of its whole history, and the table stays within its cap |
| `Anomaly.RowsScoredAgainstHistory` | src/lib/server/anomaly/engine.ts:215-218 | a written row was scored against the weighted mean of all earlier values, at least thirty |
| `Deploy.Executor.Execute` | agent/internal/deploy/executor.go:142-312 | one container deploy performs exactly the effects of the run for its outcomes |
| `Deploy.Executor.FinishOutcome` | agent/internal/deploy/executor.go:334-362 | journals the failure, posts the report, and drops the entry once accepted |
| `Deploy.Executor.StartContainer` | agent/internal/deploy/executor.go:523-538 | removes a leftover of the same name before starting |
| `Deploy.Executor.ExecuteKube` | agent/internal/deploy/executor_kube.go:23-186 | the same for a Kubernetes deploy |
| `Deploy.ContainerRunSafe` | agent/internal/deploy/executor.go:138-312 | for all outcomes, failing removals and stops included, every entry an earlier attempt may have left and every crash point: the previous container of another name is down only after health passed and never when failure is or was reported; a success report finds the new container up; an entry of this attempt reconciles to success only after health passed, and while journal writes succeed never to failure with the previous container gone |
| `Deploy.KubeRunSafe` | agent/internal/deploy/executor_kube.go:14-186 | the same on Kubernetes, for any folding of names |
| `Deploy.MisreportedIffStopUnwritten` | agent/internal/deploy/executor.go:277-289 | some crash point reconciles to failure with the previous container gone exactly when the run reaches a stop that works, the journal holds an earlier entry (of this attempt or one before) and the one before the stop was not written |
| `Deploy.KubeMisreportedIffStopUnwritten` | agent/internal/deploy/executor_kube.go:151-163 | the same on Kubernetes |
| `Deploy.ZeroGapIffOtherName` | agent/internal/deploy/executor.go:523-538 | the zero-gap rule holds for all outcomes exactly when the previous container has another name than the new one |
| `Deploy.ContainerRunEnds` | agent/internal/deploy/executor.go:142-312 | how every complete run ends, for all outcomes: success is reported exactly if every step works; the new container serves after a success, or if it was started and its removal failed; the previous one is gone exactly if a success stopped it; what the journal is left with |
| `Deploy.NewServesIffSuccessReported` | agent/internal/deploy/executor.go:203-215 | when removals work, the new container serves in the end exactly if success was reported |
| `Deploy.FailureFoundClean` | agent/internal/deploy/executor.go:203-215 | and at no crash point is a failure journaled or reported while it serves |
| `Deploy.KubeRunEnds` | agent/internal/deploy/executor_kube.go:23-186 | the same on Kubernetes: a rollback is reported exactly if the rollout failed and the undo worked; the new deployment is left up after a passed rollout, an undo, or a failed deletion |
| `Deploy.KubeFailureFoundClean` | agent/internal/deploy/executor_kube.go:112-150 | when deletions work, at no crash point is a failure reported while a deployment serves whose rollout never passed |
| `Deploy.StepsJournaledFirst` | agent/internal/deploy/journal.go:13-28 | every step is journaled before anything of it happens, and the steps journaled are the six in order up to the first that fails, the failure last |
| `Deploy.KubeStepsJournaledFirst` | agent/internal/deploy/executor_kube.go:23-186 | the same on Kubernetes, where there is no build step |
| `Delivery.Buffer.Push` | agent/internal/send/buffer.go:30-37 | appends, dropping the oldest sample of a full queue |
| `Delivery.Buffer.PushAll` | agent/internal/send/buffer.go:40-44 | pushes one by one |
| `Delivery.PushedAllSplits` | agent/internal/send/buffer.go:29-44 | what fell out followed by the queue is what was there followed by what was pushed; nothing falls out while there is room |
| `Delivery.Buffer.DrainMax` | agent/internal/send/buffer.go:58-69 | takes the oldest samples up to the limit and leaves the rest |
| `Delivery.RequeueOrder` | agent/internal/send/buffer.go:39-69 | requeueing what is left of a drained backlog, from any sample on, drops nothing, and keeps the order exactly when the backlog was the whole queue |
| `Delivery.DropOnBusy.Acquire` | agent/internal/send/coalesce.go:15-17 | takes the gate unless it is held |
| `Delivery.StepKeeps` | agent/cmd/wharfinger-agent/main.go:137-150 | every step of the loop, the socket and the post goroutine keeps the counts of a sample over all places equal to how often it was collected |
| `Delivery.EachSampleInOnePlace` | agent/cmd/wharfinger-agent/main.go:321-388 | in every interleaving each collected sample is in exactly one of queue, loop, post, unread result, delivered and evicted; between ticks the loop holds none |
| `Delivery.OnePostBoundedQueue` | agent/cmd/wharfinger-agent/main.go:130-150 | in every reachable state at most one post exists, the gate is held exactly meanwhile, the queue is within 256, and requeueing a backlog evicts nothing |
| `Delivery.OnlyOldestOfFullQueueLost` | agent/cmd/wharfinger-agent/main.go:321-388 | in every reachable state each step loses nothing, or the oldest sample of a full queue; a tick takes at most fifty samples in hand besides the live one |
| `Delivery.DeliveredIsWhatHubTook` | agent/cmd/wharfinger-agent/main.go:137-150 | in every interleaving what counts as delivered is what the hub took, up to the unread result of the one post |
| `Delivery.ConnectedTickDelivers` | agent/cmd/wharfinger-agent/main.go:366-388 | over a socket that works a tick gives the hub the oldest fifty of the backlog, in order, and the live sample after them; the rest waits |
| `Delivery.OfflineTickPosts` | agent/cmd/wharfinger-agent/main.go:137-150 | without the socket the oldest sample goes into the one post and all the others wait, nothing lost |
| `Delivery.PostCompletes` | agent/cmd/wharfinger-agent/main.go:329-338 | once a post's result is read the gate is free and the sample is delivered or queued again |
| `Audit.TextInjective` | src/lib/server/admin/audit.ts:31-46 | the serialised fields determine the row's fields and the previous hash |
| `Audit.AuditStore.WriteEntry` | src/lib/server/admin/audit.ts:89-110 | adds one row chained to the head |
| `Audit.AuditStore.Verify` | src/lib/server/admin/audit.ts:117-133 | ok exactly for a verified log; otherwise the first row at which the log stops verifying |
| `Audit.AuditStore.Prune` | src/lib/server/admin/audit.ts:241-252 | keeps the rows the query for the newest ids answered |
| `Audit.PruneKeepsLast` | src/lib/server/admin/audit.ts:237-252 | with times strictly increasing these are exactly the last five thousand rows |
| `Audit.LogsVerifyIffHashed` | src/lib/server/admin/audit.ts:67-110 | over any overlapping calls at strictly increasing times, failing inserts, failing hash updates and prunes, the log verifies exactly when every row left has its hash |
| `Audit.LogsVerify` | src/lib/server/admin/audit.ts:67-110 | while no hash update fails, exactly when no call is between its insert and its hash |
| `Audit.CallsLoggedInOrder` | src/lib/server/admin/audit.ts:67-110 | in every interleaving without failing inserts and prunes, the rows, the call about to be inserted and the waiting calls are exactly the calls made, in order |
| `Audit.WriteStepsAddRow` | src/lib/server/admin/audit.ts:89-110 | the steps of one write add the row that `WriteEntry` adds |
| `Audit.LastHashDetermines` | src/lib/server/admin/audit.ts:112-133 | two verified logs of equal length and last hash agree on every hashed field of every row |
| `Audit.DeletionVerifiesIffContiguous` | src/lib/server/admin/audit.ts:112-133 | deleting rows from a verified log leaves a verified log exactly when the rows left are one block |
| `Audit.PruneVerifiesIffNoTieAtCut` | src/lib/server/admin/audit.ts:241-252 | with times not descending, a prune keeps the log verifying for every way the query breaks ties exactly when the oldest row to keep is later than the newest to drop |
| `Base32.Feed` | src/lib/server/admin/totp.ts:10-11 | shifting in bits keeps the unmasked 32-bit accumulator the low word of the whole number |
| `Base32.Read` | src/lib/server/admin/totp.ts:14 | a group read from the accumulator is that group of the whole number |
| `Base32.Encode` | src/lib/server/admin/totp.ts:6-20 | ceil(8n/5) symbols whose digits are the bytes' number padded with zero bits, as section 6 of RFC 4648 has it |
| `Base32.Decode` | src/lib/server/admin/totp.ts:22-39 | floor(5m/8) bytes of the cleaned text's number; the error return is never taken |
| `Base32.SymbolsAreAlphabet` | src/lib/server/admin/totp.ts:4 | the symbols are the table of section 6 of RFC 4648, in order |
| `Base32.LowerCaseReads` | src/lib/server/admin/totp.ts:23 | lower case reads as upper case |
| `Base32.NoiseDropped` | src/lib/server/admin/totp.ts:23 | a character that is neither a symbol nor a lower-case letter changes nothing |
| `Base32.DecodeOfEncode` | src/lib/server/admin/totp.ts:6-39 | decoding what was encoded gives the bytes back |
| `Base32.RoundTrip` | src/lib/server/admin/totp.ts:6-39 | the two methods composed return every byte sequence |
| `Base32.EncodeOfDecode` | src/lib/server/admin/totp.ts:6-39 | encoding what was decoded gives the symbols back exactly for canonical input: fewer than five bits left over, all zero |
| `Firewall.FwFixRules` | agent/cmd/wharfinger-agent/firewall.go:45-66 | builds the plan: returns inserted from position one, the jump after them if ufw is active, drops appended |
| `Firewall.FixApart` | agent/cmd/wharfinger-agent/firewall.go:36-66 | the rules of the fix differ from each other and from every untagged rule |
| `Firewall.Chain.Apply` | agent/cmd/wharfinger-agent/firewall.go:191-208 | the apply loop, stopped at any rule, on a chain where every insertion fits |
| `Firewall.PlanFits` | agent/cmd/wharfinger-agent/firewall.go:193-204 | every insertion fits on every chain that holds part of the fix |
| `Firewall.ResumedRunsComplete` | agent/cmd/wharfinger-agent/firewall.go:191-208 | after any attempts, each stopped anywhere and each with or without ufw, a full run leaves the whole fix around the chain's own rules in their order |
| `Firewall.ResumedRunsEqualOne` | agent/cmd/wharfinger-agent/firewall.go:191-208 | with ufw unchanged that is the chain of one full run |
| `Firewall.RerunChangesNothing` | agent/cmd/wharfinger-agent/firewall.go:192-195 | a further run changes nothing, wherever it stops |
| `Packets.NetsMean` | agent/cmd/wharfinger-agent/firewall.go:32 | the three networks, read as CIDR notation, are exactly private space by first and last address |
| `Packets.FixedChainDecides` | agent/cmd/wharfinger-agent/firewall.go:36-66 | the verdict of a completed chain on every packet: private sources leave, ufw's chain decides first if the jump is there, then the chain's own rules, and what is left is dropped exactly if it opens a connection (SYN without FIN, RST, ACK, or UDP) towards private space |
| `Packets.OpeningDroppedIff` | agent/cmd/wharfinger-agent/firewall.go:11-20 | after any interrupted attempts and a full run, an outside packet that opens a connection towards private space is dropped exactly if no rule claims it or one drops it |
| `Packets.OthersAsBefore` | agent/cmd/wharfinger-agent/firewall.go:11-20 | every other outside packet fares as ufw's chain and the chain's own rules have it |
| `Packets.ReturnHidesDrops` | agent/cmd/wharfinger-agent/firewall.go:56-65 | over a chain that ends in an unconditional return the appended drops are never reached |
| `Firewall.FwRevertSpecs` | agent/cmd/wharfinger-agent/firewall.go:69-88 | the loop over the listing's lines collects the specs of the tagged rules |
| `Firewall.ListingTellsTagged` | agent/cmd/wharfinger-agent/firewall.go:67-88 | from the listing of a chain these are exactly its tagged rules, in order |
| `Firewall.Chain.Revert` | agent/cmd/wharfinger-agent/firewall.go:154-162 | the delete loop, stopped at any spec |
| `Firewall.RevertLeavesUntagged` | agent/cmd/wharfinger-agent/firewall.go:154-162 | every listed spec is found, and deleting them leaves the other rules in order |
| `Firewall.RevertRestores` | agent/cmd/wharfinger-agent/firewall.go:142-164 | after any attempts to apply, a revert restores the original chain in order, even after an interrupted one |
| `Maintenance.WeeklyOccurrences` | src/lib/shared/maintenance.ts:11-31 | every weekly occurrence from the look-back on that reaches into the range, once each and ascending |
| `Maintenance.DaysAdvance` | src/lib/shared/maintenance.ts:25-26 | a weekday lasts from its first to its last millisecond, and the next day has the next one |
| `Maintenance.KnownDates` | src/lib/shared/maintenance.ts:4-26 | dates whose weekday is known, before and after 1970 and through a whole week |
| `Maintenance.LookBackEnoughIff` | src/lib/shared/maintenance.ts:26-30 | nothing is missed exactly when the occurrence before the look-back has ended before the range |
| `Maintenance.LookBackEnough` | src/lib/server/config/schema.ts:401-403 | which is so for every duration up to seven days, whatever the range |
| `Maintenance.AdmittedOccurrences` | src/lib/shared/maintenance.ts:10-31 | for the durations the schema admits: exactly the occurrences with start <= to and end >= from (an unknown weekday, which the schema refuses, counts as Saturday) |

## Left out

- ConfigOverlay.ConfigPanel.SaveSectionValue: audit rows and the fields of the response are not modelled.
- Wildcard.LookupAgreesWithEntryFor: needs lower-case names longer than `*.`, because `lookup` compares exact names with case, suffixes without, and skips the bare `*.`.
- Anomaly.AnomalyEngine.Observe: runs to its end before the next begins; observations that interleave at their database calls are not modelled.
- Deploy.Executor.Execute: is split into methods at the points where a step ends, the source has one body; log output, progress, heartbeats and secret files are not modelled.
- Deploy.ContainerRunSafe: until the first journal write of this attempt succeeds, an entry left by an earlier attempt says what that attempt did; one attempt of one job is modelled. A container start that reports failure is taken not to have left the container serving (a failing apply on Kubernetes may).
- Firewall.Chain.Apply: says nothing for a chain on which an insertion does not fit, which `PlanFits` excludes for the fix.
- Packets.FixedChainDecides: reads the options the fix uses; rules with other words, other chains and extension targets are parameters. Packets are single, without connection tracking.
- Firewall.ListingTellsTagged: iptables is taken to list the words it was given; its quoting and normalisation of rules are not modelled.
- Audit.LogsVerifyIffHashed: the two statements of a prune are one step, and calls come at strictly increasing times.
- Floating point: the limiter, the baselines and scores are over reals, without rounding, infinities or NaN (a non-finite observation is modelled as dropped); the square root is a parameter with its defining property.
- Text: strings are sequences of characters; lone surrogates, sorting by UTF-16 code units, Unicode case mapping in base32, host comparison and metric names, and white space beyond space, tab and line ends are not modelled. Audit fields, metric names and hosts are otherwise arbitrary.
- JSON numbers are the text they print as; TOML dates and the wording of errors are not modelled, and configuration validation is any predicate on the merged document.
- Hosts and client addresses are plain identities in `Singleflight` and `Limiter`.
- SHA-256 is any function, injective where a result needs it; signing, ACME exchanges and other cryptography are not modelled.
- Resetting a section, and calling the gate through its `Run` helper, are not modelled.
- Deploys of static files, teardown jobs and agent tasks, image building, and the health probe loop (only its verdict) are not modelled.
- The journal's files of several jobs and their listing order are not modelled, only the entry of one job.
- Write errors of the redacting writer's target are ignored, as in the code.
- Times of day come as hour and minute; the text form checked by the schema is not parsed.
- Lists, filters, summaries and exports of audit rows and anomalies, and the collectors feeding the engine, are not modelled.
- HTTP, websockets, SQL, the job queue of the hub, user interface, compose import, DNS checks, identity providers and host metrics are not part of this model.
