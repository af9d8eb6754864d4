# A verified model of sk8l-api

sk8l-api keeps a local picture of a Kubernetes namespace (cronjobs, jobs and pods received over
watch streams, plus two read-through lookups with a time to live) and derives from it failure
flags, durations, Prometheus gauges and a Grafana dashboard. This project models that core in
Dafny and proves what the picture and the derived values mean, over whole runs and for every
schedule. `dafny verify dfyconfig.toml` checks it.

## How the model is built

- `Objects`, `Responses`: the Kubernetes objects and the response messages, reduced to the fields
  the modelled code reads or computes.
- `EventList`, `Watch`: the stored cronjob and job lists, and the collectors as a step system in
  which the cluster changes, a stream delivers, closes and is opened again.
- `Store`, `TtlCache`, `PodLog`: the shared database as a class whose methods are atomic
  transactions, each tied to one step function; interleavings, staleness and call rate; the
  append-only pod log and its compaction on read.
- `Fanout`, `Cronjobs`: goroutines interleaved append by append under one mutex, then the unstable
  sorts; which results depend on the schedule and which do not.
- `Derive`, `JobStatus`, `Owners`, `Pipeline`: container states to pod, job and cronjob failure,
  the owner index, and the end-to-end results.
- `Sanitize`, `Metrics`, `Dashboard`: the name sanitizer against its pattern, the gauge registry as
  a class, and the panels.
- `Rfc3339`, `Strings`, `Common`: times and their text (sections 5.1 and 5.6 of RFC 3339), Go's
  string order, sequences, sums and sorting.

Environment assumptions, stated once:

- A fresh watch replays every live object of its kind as an Added event and then carries every
  change until it closes. Whatever is pending when it closes is lost. Objects live in one
  namespace, so a name identifies an object of its kind.
- A Badger transaction is one atomic step, and the runs are those of the transactions that
  commit; its `Get` finds a live entry, reports "key not found", or fails otherwise (the parameter
  `fault`). Expiry compares whole Unix seconds.
- Encoding and decoding is the identity on entries of the right kind and fails on others.
- `slices.SortFunc` returns some sorted permutation. Ranging over a map visits its entries in any
  order. Randomness and the clock are parameters.
- Registering a metric identity twice, or one name with a different help text or label set, panics
  in the Prometheus client; here that is the precondition of `NewGauge`, so the verified callers
  never panic.

Results worth knowing before relying on the code:

- A Deleted event of a stored name that is pending when a stream closes leaves an extra name that
  stays until it is created again (`DroppedDeletionLeavesExtra`, `OrphansAreNeverRepaired`); so
  does a deletion while no stream is open. `ExtrasIff` and `ExtrasSinceLastOpening` say exactly which names are extra after any run,
  and `ConvergesWithoutLoss` and `ExtrasAreExcusedIff` when they are initial or offline ones only.
- A `Get` that fails with anything but "key not found" makes the job and the pod collector replace
  their list by the one event (`FailedGetIsHarmlessIff`, `FailedGetKeepsLogIff`), and makes the
  cronjob collector dereference a nil item (`HandleCronJobEvent`).
- The pod reported for a name is the numerically newest if and only if no logged version has more
  digits (`ReportedIsNewestIff`, `NineBeatsTen`).
- `getLastDuration` picks the second newest of three or more jobs, and depends on the schedule when
  jobs created in the same second have different durations (`LastDurationIsDeterminedIff`,
  `LastDurationCanVary`).
- What GetCronjobs sends is not one sequence for all schedules: the pods of a cronjob follow the
  order in which its goroutines took the mutex (`FanResultIff`, `PodOrderVaries`). It is one
  sequence exactly under the condition of `CronjobsAreDeterminedIff`; everything but the pod order
  is the same for every schedule when creation times are distinct
  (`CronjobsAreScheduleIndependent`).
- A condition of type Failed counts whatever its status says (`JobFailedIff`).
- With an empty namespace the dashboard's expressions miss the registered metric names by one
  underscore (`ExpressionsNameMetricsIff`).

## Model

| member | source | states |
|---|---|---|
| EventList.FilterList | sk8l.go:817-838 | filtering keeps, in order, exactly the stored objects of other names |
| EventList.ApplyEvent | sk8l.go:737-748 | Added and Modified replace by name and append, Deleted removes, every other type changes nothing |
| EventList.FoldClosedForm | sk8l.go:723-794 | after any run of events a stored list is the untouched old objects followed by the surviving upserts in the order of their last upsert |
| EventList.FoldFromMissingKey | sk8l.go:639-659 | from a missing key the run behaves as if its first event, whatever its type, had been Added |
| EventList.NextRefinesMap | sk8l.go:670-693 | one event keeps names unique and does to the list what the same event does to a map from name to object |
| EventList.FoldRefinesMap | sk8l.go:639-693 | every run of events does so: the list is a map from name to latest object |
| Watch.StepKeepsInv | sk8l.go:459-517 | create, modify, delete, deliver, close and reconnect each keep the collector invariant |
| Watch.Converges | sk8l.go:519-577 | over every run, once the stream is drained: unique names, the stored names are the live and the stale ones, live objects at their current versions, every stale name excused by history |
| Watch.OrphansIff | sk8l.go:459-517 | over every run a name is stored with no live object and no event on its way if and only if it began so or a step stranded it (deleted offline, Deleted event dropped by a close, phantom stored), and it was not created since |
| Watch.ExtrasIff | sk8l.go:459-517 | at a drained stream the extra names are exactly those, for every run |
| Watch.ExtrasSinceLastOpening | sk8l.go:462-495 | seen from the last opening: extra exactly if stored but missing from the listing the stream began with, or a phantom stored since, and not created since |
| Watch.ConvergesWithoutLoss | sk8l.go:462-495 | the extras are initial names and names deleted with no stream open if and only if the stored names missing from the last listing, and the phantoms since, are among those or were created since |
| Watch.ExtrasAreExcusedIff | sk8l.go:488-514 | the same by its causes: if and only if every name lost by a close or a bookmark and not created again is among those |
| Watch.DroppedDeletionLeavesExtra | sk8l.go:488-495 | a run from an empty store, with nothing deleted offline, that leaves an extra name |
| Watch.DrainAppliesAll | sk8l.go:480-514 | an open stream can always be drained and the store is then the fold of its pending events |
| Watch.StoredIsFoldOfDelivered | sk8l.go:504-506 | the stored list is the fold of the delivered events, and nothing else changes it |
| Watch.OrphansAreNeverRepaired | sk8l.go:462-495 | a stored name with no live object and no pending event stays through every delivery, close and reconnect until it is created again |
| Store.DB.HandleCronJobEvent | sk8l.go:639-668 | the transaction does the cronjob step; it panics exactly when Get fails otherwise; nothing is written unless it commits |
| Store.DB.HandleJobEvent | sk8l.go:670-693 | the transaction does the job step; any Get error stores the event's job alone |
| Store.DB.HandlePodEvent | sk8l.go:695-721 | the transaction appends the pod under its job-name label whatever the event type |
| Store.DB.GetAndStore | internal/store/store.go:116-151 | a hit is returned, a miss calls the API and keeps a success for 15 seconds, an error stores nothing |
| Store.DB.FindCronjobs | internal/store/store.go:180-194 | a missing key reads as the empty list, an entry of another kind is a decode error |
| Store.CronJobKeyIsInjective | internal/store/store.go:27-27 | the key of a namespace and name without underscores is the key of no other pair, valid or not |
| Store.UnderscoresCanCollide | internal/store/store.go:27-27 | with an underscore in the namespace two pairs share a key |
| Store.KeysSeparateWriters | internal/store/store.go:26-36 | two transactions that touch one key belong to one writer |
| Store.OwnersOfFixedKeys | internal/store/store.go:33-36 | the list keys have one collector each, and lookups share no key with any collector |
| Store.WriterAloneDecidesItsKeys | sk8l.go:98-103 | in any interleaving a key ends with the value its own writer's steps alone would give it |
| Store.InterleavingsAgree | sk8l.go:840-850 | two interleavings of the same writers leave the same store |
| Store.CronJobListIsItsFold | sk8l.go:639-668 | whatever runs in between, the stored cronjob list is the fold of the cronjob events |
| Store.JobListIsItsFold | sk8l.go:670-693 | likewise the job list when no Get fails |
| Store.FailedGetIsHarmlessIff | sk8l.go:672-685 | a failed Get loses jobs unless the event replaced the only stored job or changed nothing |
| TtlCache.TargetKeysAreLookupKeys | internal/store/store.go:210-211 | no collector writes under a lookup key |
| TtlCache.CacheHoldsLastRefresh | internal/store/store.go:118-134 | between all writers a lookup key always holds the last successful call's value and expiry |
| TtlCache.ReturnedValuesAreFresh | internal/store/store.go:28-28 | a value returned at t was stored at some s with t < s + 15, or is an unexpired initial entry |
| TtlCache.RepliesAre | internal/store/store.go:116-151 | every lookup hands back the last successful answer while it is younger than 15 seconds, an unexpired initial entry, or else the answer of its own call; it fails if and only if that call or the Get fails |
| TtlCache.RefreshesAreSpaced | internal/store/store.go:120-131 | successful calls for one key whose transactions commit are at least 15 seconds apart |
| TtlCache.CallsApiIff | internal/store/store.go:116-151 | a lookup calls the API if and only if no call succeeded in the last 15 seconds and the entry the store began with, if any, has expired |
| TtlCache.CallRateIsBounded | internal/store/store.go:239-258 | over every run a window of T seconds holds at most T/15 + 1 successful calls whose transaction commits, however many streams poll |
| PodLog.GroupByName | internal/store/store.go:313-320 | the groups hold exactly the owned, started pods, each under its name |
| PodLog.CompactLog | internal/store/store.go:322-337 | one pod per name, each at the greatest version in string order |
| PodLog.CompactionReports | internal/store/store.go:314-316 | reported pods have started and name the job as an owner, one per name, none older in string order than another such pod of the log |
| PodLog.FindJobPodsForJob | internal/store/store.go:275-338 | the read succeeds unless Get or decoding fails, a missing key is an empty log, and the result compacts the log |
| PodLog.ReportedIsNewestIff | internal/store/store.go:323-333 | the reported version is the numerically greatest if and only if no version of that name has more digits |
| PodLog.NineBeatsTen | internal/store/store.go:325-330 | a log of versions 9 and 10 reports 9 |
| PodLog.LogIsAppendOnly | sk8l.go:796-815 | without failed Gets a job's log only grows, by exactly the pods labelled with it |
| PodLog.PodViewOnlyMovesForward | sk8l.go:695-721 | a later read shows every pod again at the same or a greater version |
| PodLog.ReadsCompactTheEvents | internal/store/store.go:312-335 | from an empty store a read compacts exactly the versions labelled with the job |
| PodLog.FailedGetKeepsLogIff | sk8l.go:698-712 | a failed Get loses nothing if and only if the log was empty or held just that pod |
| PodLog.LoggedUnderItsLabel | sk8l.go:695-721 | a delivered pod goes to the end of the log of the job in its job-name label, of "" without the label, and no other job's log changes |
| PodLog.LoggedIffDelivered | sk8l.go:695-721 | over every run a job's log holds exactly the pods delivered with its label |
| Fanout.ReachableSatisfiesInv | sk8l.go:862-889 | at every moment each slice is the concatenation in mutex order plus the holder's part, and at most one goroutine holds the mutex |
| Fanout.PickedSlicesAreFilters | sk8l.go:879-886 | whenever the mutex is free the filtered slices are the filters of the full slices |
| Fanout.FinishedCollectsAll | sk8l.go:889-889 | when all are done the full slice is a permutation of the responses and the parts follow the mutex order |
| Fanout.EveryScheduleFinishes | sk8l.go:862-889 | no schedule deadlocks or runs for ever: at most seven steps a goroutine, exactly as many when all are done, and all are done exactly when no step is enabled |
| Fanout.GathersAgreeIff | sk8l.go:879-886 | the collected parts are one sequence for all mutex orders if and only if the parts of any two goroutines commute |
| Fanout.SortedPicksCandidate | sk8l.go:898-903 | counting alone says which elements an unstable sort can put at a position |
| Fanout.CandidateIsPicked | sk8l.go:898-903 | and each of them is put there by some sort |
| Cronjobs.WorkerOutput | sk8l.go:869-877 | what a goroutine appends: its response, its pods, itself if active, its Running pods in order |
| Cronjobs.SortCollected | sk8l.go:891-905 | the collected slices are returned with both job slices sorted by parsed creation time |
| Cronjobs.FanResultJobs | sk8l.go:852-906 | for every schedule all jobs and the active jobs come out once each in creation order |
| Cronjobs.FanResultPods | sk8l.go:881-885 | for every schedule the running pods are the Running-phase filter of the collected pods, gathered in mutex order |
| Cronjobs.FanResultIff | sk8l.go:852-906 | the results of the schedules are exactly the sorted job lists with the pods gathered in some order of the jobs |
| Cronjobs.RunningSlicesAreFilters | sk8l.go:879-886 | the same at every moment the mutex is free |
| Cronjobs.DistinctTimesDetermineJobs | sk8l.go:891-903 | with distinct creation times both job lists are the same for all schedules and the running jobs are the filter of all jobs |
| Cronjobs.CreatedAtIsCreation | sk8l.go:441-441 | the sort key is the creation time to the second |
| Cronjobs.LastDurationIsSecondNewest | sk8l.go:1183-1196 | the last duration is that of the job with exactly one newer job of three or more, else the newest |
| Cronjobs.CurrentDurationIsNewest | sk8l.go:1172-1181 | the current duration is that of the newest active job |
| Cronjobs.LastDurationIsDeterminedIff | sk8l.go:1183-1196 | it is schedule independent if and only if the jobs that can stand at its position agree |
| Cronjobs.CurrentDurationIsDeterminedIff | sk8l.go:1172-1181 | likewise the current duration |
| Cronjobs.LastDurationCanVary | sk8l.go:1183-1196 | two jobs of one second with durations 1 and 2: either is sent |
| Cronjobs.ResponsesAgree | sk8l.go:908-952 | two fan-outs over the same job responses give the same contents, and with distinct creation times the same job lists and durations |
| Cronjobs.ResponseHoldsJobs | sk8l.go:852-906 | the jobs are all of them, the running jobs those with active pods, each as often as listed, and both durations are zero without any |
| Cronjobs.ResponseHoldsPods | sk8l.go:871-886 | the pods are those of the jobs, and the running pods those of them in phase Running, in the same order |
| Cronjobs.PodOrderVaries | sk8l.go:879-886 | two jobs with pods that do not commute give two responses that differ in the order of the pods |
| Cronjobs.ResponseIsDeterminedIff | sk8l.go:852-906 | a cronjob has one response for all schedules if and only if jobs created in one second are equal and the pod lists of any two jobs commute |
| Cronjobs.BuildCronjobResponse | sk8l.go:926-952 | the response is assembled from the fan-out and is failed if and only if some job is |
| Cronjobs.CronjobsAreScheduleIndependent | sk8l.go:120-141 | over all schedules of GetCronjobs and of its inner fan-outs: the same names in the same order with the same contents, pods up to their order, and the same job lists and durations where creation times are distinct |
| Cronjobs.CronjobsAreDeterminedIff | sk8l.go:120-141 | one sequence for all schedules if and only if the response of every cronjob is determined |
| Cronjobs.LowerLetters | sk8l.go:138-141 | lowering a name maps each letter to its lower-case one and changes nothing else |
| Cronjobs.SortByStartTime | sk8l.go:211-214 | the string sort permutes the pods into start order, unset times first |
| Cronjobs.PodsAreSentOnce | sk8l.go:211-214 | with distinct start texts the sent pods are one sequence for all schedules |
| Rfc3339.ParsePrinted | internal/mapper/mappers.go:17-17 | parsing a printed time gives it back truncated to seconds |
| Rfc3339.PrintParsed | sk8l.go:1070-1070 | whatever parses is the text of the time it parses to |
| Rfc3339.FormatOrdersChronologically | sk8l.go:441-441 | printed times order as strings as the instants do, to the second |
| Rfc3339.TimeToStringOrdersChronologically | internal/mapper/mappers.go:13-18 | the string order of TimeToString is the chronological order with unset times first |
| Rfc3339.TwoSortsOneOrder | sk8l.go:891-903 | the string sort and the parse-then-compare sorts use one relation |
| Rfc3339.FiveDigitYearsSortWrongly | internal/mapper/mappers.go:17-17 | the year 10000 sorts before the year 2000 |
| Rfc3339.FormatOrdersIff | internal/mapper/mappers.go:17-17 | for years of any width the earlier text comes first if and only if the earlier year is at most the leading digits, as many as it has, of the later year |
| Rfc3339.ParseOfText | internal/mapper/mappers.go:13-18 | parsing gives the printed time to the second for a set time of a four-digit year, and fails for any other |
| Rfc3339.DaysOfYears | internal/mapper/mappers.go:17-17 | the days before a year, counting every fourth, no hundredth and every four-hundredth year as a leap year |
| Rfc3339.MonthStarts | internal/mapper/mappers.go:17-17 | the days before each month, one more after February of a leap year |
| Rfc3339.UnixEpoch | internal/mapper/mappers.go:17-17 | 1970-01-01T00:00:00Z is second 62167219200 |
| Rfc3339.ZeroTimeIsYearOne | internal/mapper/mappers.go:14-16 | the unset time is 0001-01-01T00:00:00Z |
| Derive.CollectStatus | sk8l.go:978-1016 | one status appends one shared object per waiting or terminated state, failing or not, sets its reason after appending exactly if the state is failing, and reports it once |
| Derive.CollectTerminatedAndFailedContainers | sk8l.go:955-1020 | the terminated list has one object per waiting and terminated state in status order, reasons set exactly on the failing ones; the failed list is the subsequence of those shared objects, and their reasons are appended in that order |
| Derive.TerminatedAndFailedContainersResponses | sk8l.go:1022-1057 | so for each class, and the reasons are those of the ephemeral, then init, then regular failed objects |
| Derive.StatesAreCounted | sk8l.go:980-1007 | the states are as many as there are statuses with a waiting state and with a terminated state together |
| Derive.LatestFinish | sk8l.go:1065-1085 | the printed time is a latest parseable, non-zero finish time, or empty without one |
| Derive.BuildJobPodsResponses | sk8l.go:1059-1100 | one response per pod with its reasons, failed flag and finish time |
| Derive.PodFailedIff | sk8l.go:1064-1064 | a pod is failed if and only if a container of any class waits on a configuration error or terminated with an error |
| Derive.ReasonsExplainFailures | sk8l.go:987-1015 | a pod's reasons explain, field by field, the failing states of its ephemeral, then init, then regular containers |
| Derive.FinishTimesAreOwn | sk8l.go:986-1012 | the collected times are those of the failing containers: pod start for a configuration error, own finish time for an error |
| Derive.FinishedAtIsLatest | sk8l.go:1066-1085 | FinishedAt prints the latest of them over regular containers and is empty if and only if there is none |
| Derive.PodResponseIsDetermined | sk8l.go:1059-1100 | a pod has one response, whichever of several latest times the unstable sort puts last |
| JobStatus.JobFailed | sk8l.go:367-398 | failed by a condition of type Failed or a failed pod, with the first such condition and all conditions mapped |
| JobStatus.DurationIsSettledIff | sk8l.go:1198-1218 | a duration is independent of the clock if and only if the job has not started, completed, or failed with a set transition time; else it grows with the clock |
| JobStatus.DurationIsElapsed | sk8l.go:1198-1223 | the duration is 0 before the start; else the whole seconds from the start to the transition of the first Failed condition if set, else to completion, else to now |
| JobStatus.WholeSeconds | sk8l.go:1220-1223 | durations truncate toward zero |
| JobStatus.FailureTimeIsTransition | sk8l.go:1201-1207 | the transition time survives its text to the second, and an unset one is ignored |
| JobStatus.BuildJobResponse | sk8l.go:409-457 | the response of a job, with no pods when they cannot be read |
| JobStatus.JobFailedIff | sk8l.go:392-397 | a job is failed if and only if it has a Failed condition or a reported pod with a failing container |
| JobStatus.ResponseCarriesJob | sk8l.go:367-391 | conditions are carried over field by field, the failure condition is the first of type Failed, and the reasons are those of the pods in order |
| JobStatus.JobResponseIsDetermined | sk8l.go:409-457 | a job, its pods and the clock determine its response |
| Owners.IndexByOwner | internal/store/store.go:265-272 | each bucket lists, in list order, each job once per owner reference of that name |
| Owners.BucketContents | internal/store/store.go:266-271 | a job is in a bucket as often as it names the owner, and buckets are in list order |
| Owners.BucketPointsAtOwnedJobs | sk8l.go:908-913 | the index points, in order, at the jobs that name the owner |
| Owners.BucketsConserveReferences | internal/store/store.go:265-272 | bucket lengths sum to the number of owner references |
| Owners.UnownedJobs | sk8l.go:237-243 | GetJobs keeps exactly the jobs without owner references, in order |
| Owners.KeptAndIndexedPartition | sk8l.go:237-243 | a job is kept or in some bucket, never both |
| Pipeline.CronjobFailedIff | sk8l.go:926-932 | through the owner index: failed if and only if some job naming the cronjob has a Failed condition or a reported pod with a failing container |
| Pipeline.CronjobFailsByEventsIff | sk8l.go:695-721 | down to the watch events: failed if and only if some job naming the cronjob has a Failed condition or a container error in the latest version delivered of a pod labelled with and owned by the job |
| Pipeline.RunningPodsIff | sk8l.go:869-886 | over every schedule a cronjob's pods are those read for the jobs that name it, and its running pods exactly those in phase Running |
| Pipeline.SentPodsAreInStartOrder | sk8l.go:211-214 | the sent pods stand in the order in which the pods started, unset times first |
| Pipeline.PublishedTotals | metrics.go:168-182 | the published totals count cronjob and owner reference pairs with failed, completed and running jobs, and the cronjobs |
| Pipeline.PairsIgnoreOrder | metrics.go:171-181 | these counts do not depend on the order of cronjobs or jobs |
| Pipeline.RoundsAgree | sk8l.go:105-145 | two rounds that read the same agree for all schedules in names, contents and, for jobs created apart, job lists and durations |
| Pipeline.StoredCronjobsAnswerOnce | sk8l.go:105-145 | so do two rounds of GetCronjobs over the store left by any run of all writers |
| Pipeline.SharedStoreConverges | sk8l.go:459-517 | convergence of the cronjob list holds in the shared store whatever the other writers do in between |
| Pipeline.SharedStoreJobsConverge | sk8l.go:519-577 | likewise of the job list when no Get of its collector fails |
| Sanitize.ScanFindsLongestMatch | metrics.go:51-51 | the scan finds the longest prefix that matches the pattern, and none if none does |
| Sanitize.SanitizedIsAName | metrics.go:273-275 | the result uses only letters, digits and underscores, never grows, and keeps letters and digits in order |
| Sanitize.SanitizeIsIdempotent | metrics.go:273-275 | sanitizing twice is sanitizing once, and exactly valid names are unchanged |
| Sanitize.SanitizedNameIsJoinedRuns | metrics.go:273-275 | a Kubernetes name becomes its runs of letters and digits joined by underscores |
| Sanitize.CollisionIff | metrics.go:273-275 | two Kubernetes names collide if and only if their runs are equal |
| Metrics.KeyDeterminesIdentity | metrics.go:89-95 | for job names without underscore the key determines the gauge |
| Metrics.UnderscoredJobsCanCollide | metrics.go:89-95 | with underscores two gauges can share a key |
| Metrics.NameDeterminesGauge | metrics.go:114-116 | the full name determines cronjob and family, and with the label the gauge |
| Metrics.KeyIffIdentity | metrics.go:136-161 | key and metric identity determine each other |
| Metrics.Recorder.NoConflict | metrics.go:61-69 | a gauge with a new key conflicts with nothing registered before |
| Metrics.Recorder.SetGaugeInMap | metrics.go:61-69 | the gauge of the key is set, registered only when new, and the registry invariant is kept |
| Metrics.Recorder.RecordJobDuration | metrics.go:72-103 | sets the duration gauge, zero unless the job is active, and reports failure and completion |
| Metrics.Recorder.RecordSingleCronjobMetrics | metrics.go:106-165 | sets the cronjob's gauges in order, records its three names, and returns its counts |
| Metrics.Recorder.ProcessCronjobsResponse | metrics.go:168-182 | a round sets all gauges in order and the four totals, never registering an identity twice |
| Metrics.GaugesAfterRound | metrics.go:106-165 | each gauge holds what the last listed cronjob of its sanitized name published, else its old value |
| Metrics.CountsAreExposed | metrics.go:106-165 | the last listed cronjob of a sanitized name is exposed under the registered names: the completion gauge counts its jobs with a completion time, the failure gauge its failed jobs |
| Metrics.DurationsAreExposed | metrics.go:72-103 | each of its jobs is exposed with its job_name label: its duration while active, else zero |
| Metrics.VanishedGaugesKeepTheirValue | metrics.go:61-69 | gauges of cronjobs no longer listed keep their values |
| Metrics.LaterCollisionWins | metrics.go:168-177 | of several colliding names the last listed decides both shared count gauges |
| Dashboard.CollectFailureTargets | internal/dashboard/dashboards.go:292-315 | the failure names of every visited entry become targets, in order |
| Dashboard.CronJobRowPanels | internal/dashboard/dashboards.go:111-127 | only the first visited cronjob adds its row group |
| Dashboard.SplitNames | internal/dashboard/dashboards.go:168-192 | names split by suffix into duration targets and total templates |
| Dashboard.GeneratePanels | internal/dashboard/dashboards.go:75-109 | five overview panels followed by the row group |
| Dashboard.RecordedNamesClassify | internal/dashboard/dashboards.go:57-58 | of a cronjob's three recorded names exactly one is a failure name and exactly one a duration name |
| Dashboard.OneFailureTargetEach | internal/dashboard/dashboards.go:303-323 | one failure target per recorded cronjob, with the name without its suffix as legend |
| Dashboard.RowOfRecorded | internal/dashboard/dashboards.go:153-229 | the row group has a row, two totals, one duration and one state timeline |
| Dashboard.TargetCount | internal/dashboard/dashboards.go:75-109 | 2T + 2N targets, and 4 more in one row group if N > 0, for every visiting order |
| Dashboard.RoundsRecordNames | metrics.go:114-123 | from an empty map, after any rounds: one entry per sanitized name ever listed, with its three names |
| Dashboard.TargetCountAfterRounds | internal/dashboard/dashboards.go:75-109 | after any rounds N is the number of sanitized names ever listed, vanished cronjobs included |
| Dashboard.ExpressionsNameMetricsIff | internal/dashboard/dashboards.go:79-79 | an expression is a registered metric name if and only if the namespace is not empty |
| Dashboard.OverviewShowsTotals | internal/dashboard/dashboards.go:75-109 | with a set namespace both totals panels show every total under its registered name, in order, with the metric name or a readable legend |
| Dashboard.OverviewShowsFailures | internal/dashboard/dashboards.go:86-104 | the overview begins with its heading and ends with the state timeline and the status history of the failure metrics |
| Dashboard.RecordedNamesAreRegistered | metrics.go:114-123 | with a set namespace the three recorded names are the registered names of the cronjob's gauges |
| Dashboard.RoundsKeepCovered | metrics.go:118-123 | every cronjob the dashboard knows has its failure and completion gauges |

## Left out

- gRPC streaming, TLS, health checks, start-up, shutdown and logging.
- Kubernetes client calls beyond the watch assumption and the lookup results; the YAML endpoints.
- Badger's conflict detection and the case of a transaction that fails to commit: its event is
  logged and lost, so `Watch.Converges` covers runs whose transactions commit.
- The time an API call takes inside a transaction: a lookup is one step at one second.
- Watching all namespaces at once (an empty namespace setting): the lists are keyed by name alone,
  so equal names of two namespaces would replace each other.
- Typed payloads of other kinds on a stream: a failed type assertion skips the event, which is no
  step at all.
- Field-by-field mapping of specs, metadata, sidecar flags, commands and schedules.
- Panel titles, grid positions, overrides and the annotations template.
- Time zones other than UTC and fractional seconds in parsed text: every parsed time was printed by
  the program itself.
- A missing job status in a received message: the builder always sets one.
- Durations beyond the 292 years that 64 bits of nanoseconds hold, where Go saturates, and the
  rounding of Go's conversion of a duration to floating-point seconds.
- Rounding of floating-point gauge values: gauges hold integers.
- Metric name validation in the Prometheus client.
- FormatOrdersChronologically: years of four digits only. Across widths the string order fails for
  an earlier year greater than the leading digits of the later one, as 2000 and 10000
  (`FiveDigitYearsSortWrongly`); `FormatOrdersIff` is exact for years of any width.
- PrintParsed: `Parse` accepts the whole-second UTC form only, which is the only text the program
  parses; Go's parser also reads offsets and fractions.
- RefreshesAreSpaced: counts calls whose transaction commits. Two overlapping lookups that both
  miss both call the API, and one of them fails at commit, so such calls can be closer.
- CallRateIsBounded: likewise, lookups that overlap and lose at commit are not counted.
- Rounds that read different data: two rounds are compared on the same decoded jobs, pods and
  times of measurement, because a running job's duration moves with the clock.
- GaugesAfterRound: job names without an underscore only, as Kubernetes enforces; otherwise two
  gauges can share a key (`UnderscoredJobsCanCollide`).
