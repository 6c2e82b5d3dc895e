# OpenSOAR: verified models of its stateful cores

OpenSOAR ingests security alerts, matches playbooks to them, runs the playbooks, enriches the
observables they mention, and cleans up after itself. This project models the parts whose correctness
depends on state, time and interleaving, one file per component, and proves what they keep.

- `Scheduler.dfy`, `TickProtocol.dfy`: periodic jobs in several processes that race for a lock key per
  job and time bucket. The protocol is a state machine over every interleaving of forming the key, the
  `SET`, the callback and passing time; `PassIsTick` ties its steps to the tick loop.
- `Retention.dfy`, `RetentionSafety.dfy`: the two-phase purge with foreign-key cascades, a clock read
  anew by every statement, and its audit rows; runs of purges mixed with any other edits of the tables.
- `EnrichmentCache.dfy`, `Inflight.dfy`, `RateLimit.dfy`: three structures with a time to live, each
  proved to stand for a plain log of what happened to it. `RateLimitLoop.dfy` runs the limiter's requests
  as coroutines of one event loop.
- `AlertLifecycle.dfy`, `AlertAudit.dfy`, `AlertReplays.dfy`, `AlertRecords.dfy`: the five ways an alert
  changes, the activity trail from which its status, severity and determination can be replayed, and the
  record and the bulk endpoint that update in place.
- `CountSpike.dfy`, `DailyBaseline.dfy`, `AnomalySignals.dfy`, `AnomalyWindow.dfy`, `AnomalyRuns.dfy`: the
  three heuristics of the anomaly detector, what they say of the stored alerts, and the table they write to.
- `Cosine.dfy`: the similarity loop of the embeddings, with the Cauchy-Schwarz inequality.
- `Mentions.dfy`: the `@username` scanner, against a specification by position, with a round trip.
- `Triggers.dfy`: the playbook registry and the matching of playbooks to a webhook.
- `Ingest.dfy`, `Execution.dfy`, `Retry.dfy`: webhook deduplication, correlation ids from ingest to
  action results, playbook runs and sequences, and the retry loop around an action.
- `Common.dfy`, `Text.dfy`, `Reals.dfy`: shared vocabulary, string facts and named products.

Objects whose methods update fields are classes; their methods are proved against functions over values,
and the theorems are about runs of those functions. Time is an argument everywhere: a real number where
the code reads `time.time()` or `time.monotonic()`, an integer where it reads a date. What the outside
world decides (replies, exceptions, fetched payloads, how a playbook ends) is an argument too.

Some expectations one may have of the code turned out false; each is stated with the exact condition
under which it holds, or with the input that breaks it:

- A scheduler job runs at most once per bucket exactly when the lock's time to live is at least the
  interval plus the longest delay of a `SET`; the default of 60 seconds is too short for jobs of a
  minute or more (`LockTtlExact`, `DefaultTtlTooShort`).
- In-flight claims exclude each other exactly when every task lives less than the time to live
  (`LifetimeExact`); clearing does not check who holds the slot, so a task that outlives it frees somebody
  else's (`LateClearFreesAnotherClaim`). Which tenants share slots is `TenantsShareSlots`.
- Reopening an archived alert does not save it from removal: archived rows go exactly when the grace period
  is over and the purge is not refused (`ArchivedRemovedExactly`). It is refused exactly when a playbook run
  refers to an alert whose grace period is over (`BlockedExactly`), and one such alert then stops every
  later purge for as long as the reference stays (`PurgesStall`).
- Activities under the action "retention_purge" outnumber the purges exactly when somebody else wrote one,
  which a playbook can (`AuditCountExact`); such a row goes with its alert (`PosingRowsCascade`).
- A source is invalidated together with those whose names continue it after a colon (`PrefixSelectsSource`).
- The audit trail misses an empty status, and a playbook can write an activity that misleads the replay;
  `ReplayStep` is an equivalence. So is `DeterminedStep`: an update without a status can take the
  determination of a resolved alert back.
- The severity lines tell the severity exactly while no empty one is stored and nothing poses as such a line
  (`TrailTellsSeverity`). A bulk resolution stores the requested determination but logs only the status, so
  the determination lines then tell the old one (`TrailTellsDetermination`, `BulkResolutionUntold`).
- The limiter's docstring says token bucket; the code is a log of admissions in a sliding window. Its bound
  rests on clock readings processed in order, which the event loop guarantees (`ReadingsInOrder`); late
  readings would shorten the bounded windows by their delay (`LateWindowBounded`).
- A job with an interval below a second may ask for the same bucket again at once (`ProgressExact`).
- Matched playbooks are sorted within each trigger type; as a whole exactly when their orders follow the
  types (`SortedExactly`).
- An alert that predates correlation ids gets one too late for the runs it already had
  (`TracedExactlyWhenKnown`), and the runs of a sequence for it do not even share one
  (`SequenceSharesId`): no sequence runner sets the context the executor falls back to.
- An action whose success cannot be recorded is called again, as if it had failed (`Retry.Invoke`).
- A playbook stopped by an exception outside `Exception` leaves its run "running" with a finish time
  (`PlaybookExecutor.Close`).

## Model

| member | source | states |
|---|---|---|
| `Scheduler.BucketUnique` | src/opensoar/core/scheduler.py:139-144 | A clock reading inside one window of the job's period gets exactly that window's bucket number |
| `Scheduler.LaterBucket` | src/opensoar/core/scheduler.py:139-146 | A reading at or after the end of a bucket falls in a strictly later bucket |
| `Scheduler.LockKeysCoincide` | src/opensoar/core/scheduler.py:44-47 | Two full lock keys are equal if and only if the buckets and the prefix-qualified names are equal |
| `Scheduler.LockKeyInjective` | src/opensoar/core/scheduler.py:44-47 | Jobs whose names do not start with the key prefix never share a lock key |
| `Scheduler.PrefixedNameCollides` | src/opensoar/core/scheduler.py:44-47 | A name that already carries the prefix does share its keys with the bare name |
| `Scheduler.Scheduler.Register` | src/opensoar/core/scheduler.py:101-115 | A job registered again starts afresh but keeps its place; other jobs are untouched |
| `Scheduler.Scheduler.Unregister` | src/opensoar/core/scheduler.py:117-121 | Removes exactly the named job; the others keep their entries and their order |
| `Scheduler.Scheduler.Tick` | src/opensoar/core/scheduler.py:151-194 | For every job of the table: not due, nothing happens; due and beaten to the key where there is a lock, the clock and the tick id move on without the callback; otherwise the callback runs, and both move on unless it raises |
| `TickProtocol.LockTtlExact` | src/opensoar/core/scheduler.py:49-67 | In every interleaving of any number of processes each (job, bucket) is executed at most once, if and only if the key lives at least one interval plus the longest delay between forming the key and the SET |
| `TickProtocol.ExecutedAtMostOnce` | src/opensoar/core/scheduler.py:151-194 | The safe direction for every initial state and run, without the witness |
| `TickProtocol.ShortLockRunsTwice` | src/opensoar/core/scheduler.py:151-194 | Under any shorter time-to-live, a legal run of two processes that executes one bucket twice |
| `TickProtocol.DefaultTtlTooShort` | src/opensoar/core/scheduler.py:23 | With the default 60 seconds a job of 60 seconds or more can run twice as soon as any delay is possible |
| `TickProtocol.BlockedOnlyByItself` | src/opensoar/core/scheduler.py:44-67 | A job finds its key taken only if that very job already claimed that very bucket, so different jobs never block each other |
| `TickProtocol.SelfProgress` | src/opensoar/core/scheduler.py:159-194 | For intervals of at least a second: after a completed callback or a lost lock a process attempts a strictly later bucket; it attempts one key twice only with a raised callback in between |
| `TickProtocol.ProgressExact` | src/opensoar/core/scheduler.py:139-146 | Both hold in every run if and only if the interval is at least a second |
| `TickProtocol.LockPhase` | src/opensoar/core/scheduler.py:164-184 | Forming the key, any delay and the reply, played as protocol events, log one attempt and either an execution or a lost attempt that advances the job |
| `TickProtocol.JobPassIsTickBody` | src/opensoar/core/scheduler.py:157-194 | One due job of a pass, played as protocol events with any delays, changes the job table exactly as the loop body of the tick does |
| `TickProtocol.PassIsTick` | src/opensoar/core/scheduler.py:151-194 | A whole pass of a process, with any delays, replies and callback ends on the way, leaves the job table as the tick loop leaves it |
| `RetentionSafety.RowFate` | src/opensoar/retention/service.py:116-192 | What a purge does to one alert or incident: nothing when it is refused; else archived at the purge's time, and otherwise unchanged, exactly when closed and past its period; gone exactly when archived for longer than the grace period; else untouched; nothing is inserted |
| `RetentionSafety.AlertArchivedExactly` | src/opensoar/retention/service.py:116-136 | An unarchived alert leaves a purge that is not refused with the purge's time as its archive time, or is gone at once where the grace period is already over, if and only if its status is "resolved" or "closed" and its resolution time, or without one its creation, lies more than the retention period before the reading taken for that case; otherwise it is untouched |
| `RetentionSafety.IncidentArchivedExactly` | src/opensoar/retention/service.py:139-159 | The same for incidents and their closing time |
| `RetentionSafety.BlockedExactly` | src/opensoar/retention/service.py:177-183 | A purge is refused if and only if a playbook run refers to an alert whose grace period is over |
| `RetentionSafety.PurgesStall` | src/opensoar/retention/service.py:235-274 | From the end of its grace period on, an archived alert with a playbook run stops every purge for as long as the reference stays: over any run no purge commits, for any row |
| `RetentionSafety.ActivityFate` | src/opensoar/retention/service.py:162-202 | What a purge does to one activity: nothing when it is refused; else gone exactly with its alert or incident, or when archived past the grace period and no audit row; archived exactly when due and no audit row; else untouched |
| `Retention.Session.RunRetentionPurge` | src/opensoar/retention/service.py:205-277 | A dry run changes nothing; a refused purge leaves no trace; otherwise the six statements together do what the declarative fate of the rows says, and the audit row is written with the counts the caller gets |
| `RetentionSafety.LifetimeSafety` | src/opensoar/retention/service.py:116-192 | Over any run of purges, updates, insertions and deletions, a row removed by a purge had been archived, as that very row, by a recorded purge more than the grace period before, when it was closed and past retention; by an earlier one, if the removing purge is no longer than the grace period |
| `RetentionSafety.ArchivedRemovedExactly` | src/opensoar/retention/service.py:177-192 | An archived alert or incident goes if and only if its grace period is over and the purge is not refused, whatever its status is by then, so reopening it does not save it |
| `RetentionSafety.AuditRowsSurvive` | src/opensoar/retention/service.py:162-202 | After any run the audit row of every committed purge is there, untouched and distinct: never archived, removed or cascaded, also when others write activities under the same action |
| `RetentionSafety.AuditRowsTell` | src/opensoar/retention/service.py:257-274 | After any run each of these rows still tells how many rows its purge archived and removed, under the action, the creation time and without an archive time it was written with |
| `RetentionSafety.AuditCountExact` | src/opensoar/retention/service.py:162-202 | There is exactly one such activity per committed purge if and only if nobody else wrote one |
| `RetentionSafety.PosingRowsCascade` | src/opensoar/retention/service.py:195-202 | An activity somebody else wrote under the purge's action is spared by the clean-up, and goes if and only if a purge that is not refused takes its alert or incident |
| `RetentionSafety.AuditRowsStayOpen` | src/opensoar/retention/service.py:162-174 | In no run is an activity under the purge's action ever archived |
| `RetentionSafety.ReportAccountsForLosses` | src/opensoar/retention/service.py:229-273 | The removals noted in the audit row equal the alerts and incidents that went; activities that went are the noted ones plus the cascaded ones; a refused purge takes nothing |
| `RetentionSafety.ReportedCandidates` | src/opensoar/retention/service.py:54-113 | The dry run's counts are the sizes of the six sets of rows that satisfy the written-out conditions of the counting statements |
| `RetentionSafety.DryRunPredicts` | src/opensoar/retention/service.py:54-113 | Under a frozen clock a dry run's counts equal the purge's for alerts and incidents; for activities they exceed it by exactly the old audit rows and the rows lost to a cascade |
| `EnrichmentCache.AnswerMeansFreshSet` | src/opensoar/integrations/cache.py:50-70 | The log's answer for a key is a value if and only if some set of that key is not touched since and less than its ttl old |
| `EnrichmentCache.InMemoryCacheBackend.Get` | src/opensoar/integrations/cache.py:50-58 | The lazily evicting store answers exactly as the log does |
| `EnrichmentCache.InMemoryCacheBackend.SetEntry` | src/opensoar/integrations/cache.py:60-61 | Storing appends one set to the log and keeps the agreement |
| `EnrichmentCache.InMemoryCacheBackend.Remove` | src/opensoar/integrations/cache.py:63-64 | Removing appends one deletion to the log and keeps the agreement |
| `EnrichmentCache.InMemoryCacheBackend.RemovePrefix` | src/opensoar/integrations/cache.py:66-70 | Removes exactly the stored keys with the prefix and returns their number |
| `EnrichmentCache.CacheMetrics.Record` | src/opensoar/integrations/cache.py:130-154 | Per-source hits, misses and stores keep adding up to the global counters; an invalidation adds one per source whatever it adds globally |
| `EnrichmentCache.KeysCoincide` | src/opensoar/integrations/cache.py:187-190 | Keys of colon-free sources are equal if and only if source, type and digest are |
| `EnrichmentCache.PrefixSelectsSource` | src/opensoar/integrations/cache.py:192-193 | The prefix of a colon-free source matches a key if and only if the key's source is that source or continues it after a colon |
| `EnrichmentCache.PrefixSelectsBuilt` | src/opensoar/integrations/cache.py:187-193 | Among keys of colon-free sources it matches exactly those built for that source |
| `EnrichmentCache.EnrichmentCache.Get` | src/opensoar/integrations/cache.py:195-207 | The decoded answer of the log; undecodable text is a miss |
| `EnrichmentCache.EnrichmentCache.SetPayload` | src/opensoar/integrations/cache.py:209-224 | Appends one set and counts one store, or does nothing when the payload cannot be encoded |
| `EnrichmentCache.EnrichmentCache.Invalidate` | src/opensoar/integrations/cache.py:226-229 | Deletes the one key and reports 1 |
| `EnrichmentCache.EnrichmentCache.InvalidateSource` | src/opensoar/integrations/cache.py:231-234 | Removes exactly the stored entries of the source and of sources that continue it after a colon, so exactly those set under the source where no source has a colon, and returns their number |
| `EnrichmentCache.EnrichmentCache.GetOrFetch` | src/opensoar/integrations/cache.py:236-254 | A value set for the same key less than its ttl ago, not touched since and not decoding to null is returned without a fetch; otherwise the result is this call's fetch, and a payload that encodes is logged as one set and counted as one store, any other leaves both alone; also with other writers active while the fetch is awaited |
| `EnrichmentCache.SetHolds` | src/opensoar/integrations/cache.py:50-61 | A text set at one time is what the log answers at any later one before its ttl is over, whatever is done to other keys in between |
| `EnrichmentCache.SecondCallHits` | src/opensoar/integrations/cache.py:236-254 | Two calls: after a miss that fetched and stored, with the key left alone, a second call before the ttl is over fetches nothing and returns what the stored text decodes to |
| `Inflight.SlotKeysCoincide` | src/opensoar/worker/enrichment.py:64-65 | Slot keys of colon-free tenants and types are equal if and only if tenant, type and value are |
| `Inflight.PartnersShareSlots` | src/opensoar/worker/enrichment.py:64-65 | For colon-free partner names and types: no partner, the empty one and "-" are one tenant, any two others are different, and type and value always count |
| `Inflight.TenantsShareSlots` | src/opensoar/worker/enrichment.py:64-65 | For colon-free types, some values of two tenants share a slot if and only if tenant and type are the same or the longer tenant name continues the shorter one with a colon and its type |
| `Inflight.Tracker.MarkInflight` | src/opensoar/worker/enrichment.py:102-110 | Drops exactly the expired slots and claims the key if and only if nobody live holds it |
| `Inflight.Tracker.ClearInflight` | src/opensoar/worker/enrichment.py:113-125 | From then on the key is held at no time, whoever claimed it, and every other key exactly as before |
| `Inflight.EnqueueOutcome` | src/opensoar/worker/enrichment.py:289-314 | An enqueue on a free key holds it for exactly 300 seconds and starts its task; when the broker fails the key is free again at once and no task starts; on a held key nothing changes; all other keys are held as before |
| `Inflight.FinishOutcome` | src/opensoar/worker/enrichment.py:548-560 | A finishing task frees its key at every time and no other |
| `Inflight.GrantsSeparated` | src/opensoar/worker/enrichment.py:289-314 | In every run two grants of one key are separated by a clear of that key or by at least the time to live |
| `Inflight.MutualExclusion` | src/opensoar/worker/enrichment.py:466-505 | While every task clears within the time to live, each key has at most one claimed and uncleared task in every reachable state |
| `Inflight.LifetimeExact` | src/opensoar/worker/enrichment.py:103-110 | With uncleared tasks at most d old, that holds in every run if and only if d is less than the time to live |
| `Inflight.LateClearFreesAnotherClaim` | src/opensoar/worker/enrichment.py:548-560 | A task that clears late frees the claim of another: two young claims of one key |
| `RateLimit.RateLimiter.Dispatch` | src/opensoar/middleware/rate_limit.py:61-87 | Keeps every client's pruned bucket in agreement with the admission log; admits exactly when the pruned bucket is not full; other clients and other paths are untouched |
| `RateLimit.BucketIsWindow` | src/opensoar/middleware/rate_limit.py:72-73 | Pruned at a time no earlier than the readings, the bucket is the whole admission history filtered to the last window |
| `RateLimit.RejectedExactlyWhenFull` | src/opensoar/middleware/rate_limit.py:75-85 | A request is rejected if and only if at least the allowed number of admissions lie in the window ending now |
| `RateLimit.EveryWindowBounded` | src/opensoar/middleware/rate_limit.py:66-87 | Every window of the length of the limit, wherever it starts, holds at most the allowed number of admissions |
| `RateLimit.LateWindowBounded` | src/opensoar/middleware/rate_limit.py:66-87 | Were readings processed late by at most some delay, every window shorter by that delay would still hold at most the allowed number |
| `RateLimitLoop.ReadingsInOrder` | src/opensoar/middleware/rate_limit.py:66-87 | On one event loop, however the requests are interleaved at their suspension points, nobody waits for the lock and the readings are processed in the order they were taken |
| `RateLimitLoop.LoopWindowsBounded` | src/opensoar/middleware/rate_limit.py:66-87 | So in every run of the loop every window holds at most the allowed number of admissions |
| `AlertRecords.AlertRecord.ApplyUpdate` | src/opensoar/api/alerts.py:360-447 | Exactly which requests are refused, fail or apply; then each of the nine fields is the request's where given and the old one otherwise, the resolution time is set once, and the trail grows by exactly the lines that the changes call for; a refused or failing request changes nothing; the record's invariant is kept exactly by traceable requests |
| `AlertRecords.AlertRecord.Claim` | src/opensoar/api/alerts.py:474-493 | The claimer is assigned, a new alert and no other moves to in_progress, the trail grows by the claim and, in that case, the status change; nothing else changes, and the record's invariant is kept |
| `AlertRecords.AlertRecord.ApplyBulk` | src/opensoar/api/alerts.py:543-599 | "assign" assigns the requester and moves a new alert on, "change_severity" with a severity stores it, each with its line and nothing else changed; any other action but "resolve" fails and changes nothing; the record's invariant is kept |
| `AlertRecords.AlertRecord.ResolveInBulk` | src/opensoar/api/alerts.py:544-571 | A resolved alert is skipped; one whose requested or else stored determination is "unknown" fails; neither changes; any other is resolved now, overwriting an old resolution time, with the requested reason and determination where there are any and one status line |
| `AlertRecords.AlertRecord.ApplyPlaybookUpdate` | src/opensoar/runtime.py:53-113 | Exactly which changes are valid; a valid one stores what it gives and keeps the rest, sets the resolution time once, and adds a line for a changed status, one for a changed determination, and the playbook's own; an invalid one changes nothing; the record's invariant is kept exactly by traceable updates |
| `AlertRecords.AlertRecord.AssignByPlaybook` | src/opensoar/runtime.py:262-311 | The found analyst is assigned and a new alert moves on; without a target the assignment is cleared; in both cases one line and nothing else; a target that is not found changes nothing; the record's invariant is kept |
| `AlertRecords.BulkUpdate` | src/opensoar/api/alerts.py:520-609 | The loop over the requested ids, with repetitions, acts on the rows in order and goes on past a failing one; counters and errors are those of the verdicts |
| `AlertRecords.BulkCountsAddUp` | src/opensoar/api/alerts.py:543-609 | Updated, failed and skipped add up to the requested ids, with one error for each failure |
| `AlertRecords.BulkActsOnEach` | src/opensoar/api/alerts.py:520-599 | A stored alert ends as if the operation had been applied to it alone, once for every time it is requested, and unchanged where access is denied |
| `AlertRecords.BulkJudgesEach` | src/opensoar/api/alerts.py:520-599 | Each request is not found, denied, or judged on its alert as the earlier requests left it |
| `AlertRecords.FailuresSnoc` | src/opensoar/api/alerts.py:543-607 | The errors are the failing verdicts in the order of the ids |
| `AlertReplays.TrailTellsSeverity` | src/opensoar/api/alerts.py:435-445 | The severity lines tell the severity all along a run if and only if no operation of it stores an empty severity over another or writes a posing line |
| `AlertReplays.TrailTellsDetermination` | src/opensoar/api/alerts.py:424-433 | The same for the determination lines, where a bulk resolution that changes the determination breaks it too |
| `AlertReplays.BulkResolutionUntold` | src/opensoar/api/alerts.py:557-571 | Such a bulk resolution leaves a trail that still tells "unknown" |
| `AlertAudit.ReplayStep` | src/opensoar/api/alerts.py:404-445 | One operation keeps the trail's replayed status equal to the alert's if and only if it stores no empty status and no foreign activity poses as a status event |
| `AlertAudit.ConsistentStep` | src/opensoar/api/alerts.py:366-592 | The same for the record's whole invariant: trail and status agree, and a resolved alert has its time |
| `AlertAudit.TrailReconstructsStatus` | src/opensoar/api/alerts.py:366-592 | Over any run of proper operations, replaying the activities from "new" gives exactly the alert's status |
| `AlertAudit.ResolvedHasTime` | src/opensoar/api/alerts.py:407-408 | In every reachable state a resolved alert has its resolution time |
| `AlertAudit.EnteringResolvedIsDetermined` | src/opensoar/api/alerts.py:366-373 | Every step that enters "resolved" leaves a determination other than "unknown" |
| `AlertAudit.DeterminedStep` | src/opensoar/api/alerts.py:404-405 | A step keeps "resolved implies a determination other than unknown" if and only if it is no update, by analyst or playbook, that sets "unknown" on a resolved alert without a status |
| `AlertAudit.ResolvedIsDetermined` | src/opensoar/api/alerts.py:366-373 | Over any run without such a step every resolved alert is determined |
| `AlertAudit.DeterminationCanBeTakenBack` | src/opensoar/runtime.py:68-73 | Both an analyst and a playbook can take it back |
| `AlertAudit.ImproperOperationsMislead` | src/opensoar/api/alerts.py:404-422 | An empty status is stored without a trace, and a playbook activity called "claimed" leaves a false one |
| `CountSpike.ComputeStdev` | src/opensoar/ai/anomaly.py:104-109 | The two-pass sample deviation, zero below two values |
| `CountSpike.SpikeInIntegers` | src/opensoar/ai/anomaly.py:52-61 | The mean, deviation and z-score test at threshold 3 fires if and only if an integer inequality in n, the sum, the square sum and the count holds |
| `DailyBaseline.TallyDays` | src/opensoar/ai/anomaly.py:204-208 | The per-day dictionary counts every history alert of a key under its day |
| `DailyBaseline.DetectSpike` | src/opensoar/ai/anomaly.py:214-228 | The cut, padded baseline and the test on it; no decision for a key without history |
| `DailyBaseline.BaselineAt` | src/opensoar/ai/anomaly.py:214-226 | For any history: each slot of the baseline holds how often one of the last n days to occur first occurs, and 0 where there are fewer days |
| `DailyBaseline.FirstDaysPrefix` | src/opensoar/ai/anomaly.py:204-208 | The days stand in the order of their first occurrence |
| `DailyBaseline.WindowBaseline` | src/opensoar/ai/anomaly.py:214-226 | When all history lies in the window, the padded baseline has the window's length, the key's total count as its sum and the window's squared counts as its square sum |
| `DailyBaseline.SpikeDecision` | src/opensoar/ai/anomaly.py:225-228 | The decision for such a history is the integer test on these totals |
| `DailyBaseline.HistoryOrderIrrelevant` | src/opensoar/ai/anomaly.py:207-228 | The decision does not depend on the order of the history |
| `AnomalySignals.Detector.Emit` | src/opensoar/ai/anomaly.py:131-141 | At most one signal per kind, partner, rule and address |
| `AnomalySignals.Detector.FirstSeenPass` | src/opensoar/ai/anomaly.py:144-165 | A first_seen_ip signal is emitted if and only if the address is seen now and never in the history of its partner and rule |
| `AnomalySignals.Detector.HistoryBest` | src/opensoar/ai/anomaly.py:168-174 | The best severity rank of every partner and rule with history |
| `AnomalySignals.Detector.NewSeverityPass` | src/opensoar/ai/anomaly.py:176-200 | A new_severity signal of a pair and address is emitted if and only if an alert of theirs exceeds every rank the pair had before it, and there was one; a pair fires exactly when a current rank exceeds its threshold; ranks strictly increase |
| `AnomalySignals.Detector.CountSpikePass` | src/opensoar/ai/anomaly.py:210-245 | A count_spike signal is emitted if and only if the key has history and today's count passes the test |
| `AnomalySignals.BestIsMaximum` | src/opensoar/ai/anomaly.py:169-174 | The running best is the maximum of the ranks: an upper bound that is attained |
| `AnomalySignals.RankOrder` | src/opensoar/ai/anomaly.py:36-101 | critical ranks over high, over medium and moderate alike, over low, over a missing label |
| `AnomalySignals.RankIgnoresCase` | src/opensoar/ai/anomaly.py:36-101 | A label ranks as its lower-case form |
| `AnomalySignals.RankOfUnknown` | src/opensoar/ai/anomaly.py:36-101 | A label that is no known one in any letter case ranks with a missing label |
| `AnomalySignals.EscalationOverHistory` | src/opensoar/ai/anomaly.py:176-200 | For a pair with history, firing means exactly that a current rank exceeds every historical one |
| `AnomalyRuns.AnomalyTable.Persist` | src/opensoar/ai/anomaly.py:293-316 | Every row added belongs to one of the signals, carries its insertion time and a key not stored since the start of the day; afterwards every signal is stored; no key twice on one day; the result is the number of rows added |
| `AnomalyRuns.AnomalyTable.RunAnomalyDetection` | src/opensoar/ai/anomaly.py:250-322 | Over a whole run, in terms of the stored alerts alone: exactly which keys each of the three heuristics emits, that each is stored, that nothing else is, and that at most one row per key and UTC day exists |
| `AnomalyWindow.InWindowExact` | src/opensoar/ai/anomaly.py:258-281 | History and current batch hold exactly the stored alerts of the baseline window before and since the last midnight, each as often as it is stored |
| `AnomalyWindow.FirstSeenMeans` | src/opensoar/ai/anomaly.py:144-165 | On these batches a first_seen_ip key means: a named address stored today and not on the earlier days of the window, for that partner and rule |
| `AnomalyWindow.RisesMeans` | src/opensoar/ai/anomaly.py:167-200 | A new_severity key means: some alert of today outranks all alerts of its partner and rule on the earlier days of the window and before it today, and there are such |
| `AnomalyWindow.RunSpikeDecision` | src/opensoar/ai/anomaly.py:265-281 | A count_spike key means: the integer test on S, the key's stored alerts on the earlier days of the window, Q, the sum of their squared daily counts, and c, those of today, with S and c not zero |
| `Mentions.ParseMentionTokens` | src/opensoar/comments/mentions.py:24-36 | The left-to-right scan that resumes after each match returns the tokens of all mention positions, deduplicated by first occurrence |
| `Mentions.NothingInsideAName` | src/opensoar/comments/mentions.py:21 | Resuming at the end of a match skips no mention position |
| `Mentions.TokensExact` | src/opensoar/comments/mentions.py:21-35 | A string is a token if and only if some position of the text is a mention that yields it |
| `Mentions.TokensWritten` | src/opensoar/comments/mentions.py:18-35 | The parser returns a string if and only if, written out by characters: an @ not after a word character, @ or dot, the longest run of at most 64 name characters after it, cut before its final punctuation, in lower case, is that string |
| `Mentions.DedupPrefix` | src/opensoar/comments/mentions.py:24-36 | What a shorter list of tokens gives is a prefix of what the whole gives, so each token stands where it first occurred |
| `Mentions.CaseIrrelevant` | src/opensoar/comments/mentions.py:24-36 | A text and its lower-case form have the same tokens in the same order |
| `Mentions.TokensCanonical` | src/opensoar/comments/mentions.py:29-32 | Every token is a lowercase username of at most 64 characters that starts with a username character and ends in no punctuation |
| `Mentions.RoundTrip` | src/opensoar/comments/mentions.py:24-36 | Parsing "@u1 @u2 ..." of canonical usernames returns them, deduplicated in order |
| `Mentions.ParseRenderParse` | src/opensoar/comments/mentions.py:24-36 | Whatever any text parses to survives being written out and parsed again |
| `Cosine.CosineSimilarity` | src/opensoar/ai/embeddings.py:160-177 | The accumulator loop computes the score, and 0 for empty, mismatched and zero-norm vectors |
| `Cosine.ScoreTimesLengths` | src/opensoar/ai/embeddings.py:160-177 | The score times the two lengths is the dot product, also for zero vectors |
| `Cosine.LawOfCosines` | src/opensoar/ai/embeddings.py:160-177 | The squared distance of two vectors is the sum of their squared lengths less twice the lengths times the score, which fixes its sign |
| `Cosine.CauchySchwarz` | src/opensoar/ai/embeddings.py:168-174 | The squared dot accumulator is at most the product of the norm accumulators |
| `Cosine.Bounded` | src/opensoar/ai/embeddings.py:160-177 | The score lies between -1 and 1 for all inputs |
| `Cosine.Symmetric` | src/opensoar/ai/embeddings.py:160-177 | The score is symmetric |
| `Cosine.ScaleInvariant` | src/opensoar/ai/embeddings.py:160-177 | A positive factor on a vector does not change the score |
| `Cosine.PerfectScore` | src/opensoar/ai/embeddings.py:160-177 | The score is 1 if and only if one vector is non-zero and the other a positive multiple of it |
| `Triggers.MatchIsIntersection` | src/opensoar/core/registry.py:136-148 | The four shapes of a condition ask one question: the field is not null and shares an item with the expectation |
| `Triggers.PlaybookRegistry.Register` | src/opensoar/core/decorators.py:184-199 | A known name is replaced in place, a new one goes last, and names stay distinct |
| `Triggers.PlaybookRegistry.GetPlaybooksForTrigger` | src/opensoar/core/registry.py:106-118 | The loop and sort return the segment of the trigger type |
| `Triggers.SegmentSorted` | src/opensoar/core/registry.py:118 | In a segment every playbook has a smaller order than the next ones, or the same order and a smaller name |
| `Triggers.LessMeans` | src/opensoar/core/registry.py:118 | One name is smaller than another if and only if it is a proper prefix of it or has the smaller character where they first differ |
| `Triggers.SortedUnique` | src/opensoar/core/registry.py:118 | Two sorted sequences of the same playbooks are equal |
| `Triggers.PlaybookRegistry.Match` | src/opensoar/core/triggers.py:15-31 | Merging with a set of seen names is the concatenation of the segments: the deduplication only drops the repeated one of the source "webhook" |
| `Triggers.MatchExact` | src/opensoar/core/triggers.py:15-25 | A playbook is in the result if and only if it is registered, enabled, waits for one of the three types, and for every one of its conditions the alert has the field, not null, and shares an item with the expectation |
| `Triggers.MatchedDistinct` | src/opensoar/core/triggers.py:18-25 | No name occurs twice in the result |
| `Triggers.RegistrationOrderIrrelevant` | src/opensoar/core/triggers.py:15-31 | The result depends on which playbooks are registered, not on the order of registration |
| `Triggers.SortedExactly` | src/opensoar/core/triggers.py:15-25 | The whole result is sorted by order and name if and only if every ready playbook comes before every ready one of a later trigger type |
| `Triggers.NotSortedAcrossTypes` | src/opensoar/core/triggers.py:21-25 | A registry for which it is not |
| `Ingest.Session.ProcessWebhook` | src/opensoar/ingestion/webhook.py:44-110 | Bumps the one alert with the same source and non-empty source id and fills in a missing correlation id, else adds an alert with a fresh one; raises when the lookup finds several |
| `Ingest.UnknownIsAdded` | src/opensoar/ingestion/webhook.py:76-98 | A webhook without a source id, or with one no stored alert of the source has, adds an alert with the count 1 and a fresh correlation id, which becomes the context's |
| `Ingest.KnownIsCounted` | src/opensoar/ingestion/webhook.py:61-75 | A webhook that names one stored alert raises its count by one, replaces its payload, fills a missing correlation id in and sets the context to it; nothing else changes |
| `Ingest.OnePerKeyKept` | src/opensoar/ingestion/webhook.py:52-61 | A table with at most one alert per source and non-empty source id stays one, and the lookup never finds several |
| `Ingest.RaisesExactlyOnDuplicates` | src/opensoar/ingestion/webhook.py:54-60 | The lookup raises if and only if two alerts already share the key, and then nothing changes |
| `Ingest.IngestConserves` | src/opensoar/ingestion/webhook.py:61-62 | Over any run the duplicate counts grow by exactly one per webhook, in total and for every key |
| `Ingest.CounterIsWebhooks` | src/opensoar/ingestion/webhook.py:61-64 | From an empty table, the counter of a keyed alert is the number of webhooks with its key |
| `Ingest.AlertsAreKeys` | src/opensoar/ingestion/webhook.py:51-98 | From an empty table, the alerts number the different keys that came plus the webhooks without a key |
| `Ingest.CorrelationNeverChanges` | src/opensoar/ingestion/webhook.py:67-69 | Over any run an alert keeps its source, its source id and its correlation id once set |
| `Ingest.TracesStaySeparate` | src/opensoar/ingestion/webhook.py:78-96 | Different alerts never share a correlation id |
| `Execution.PlaybookExecutor.Execute` | src/opensoar/core/executor.py:34-156 | Exactly one run is added, with the alert's correlation id, else the context's, else a fresh one, and the status and error of how the playbook ended, and one row for each of its action results with the run's id; an unknown playbook or alert leaves neither; the context is restored |
| `Execution.PlaybookExecutor.Close` | src/opensoar/core/executor.py:112-146 | Success, failure and cancellation set their status; any other exception leaves "running"; the finish time is always set |
| `Execution.TracesHold` | src/opensoar/core/executor.py:63-100 | Over any events, every run for an alert that had an id or was ingested meanwhile carries the alert's id, and every action result its run's |
| `Execution.TracedExactlyWhenKnown` | src/opensoar/core/executor.py:63-67 | A run carries the id its alert ends up with if and only if the alert had one at the time of the run |
| `Execution.PlaybookExecutor.ExecuteSequence` | src/opensoar/worker/tasks.py:125-160 | Records one run per playbook at positions 1 to k; the only reasons to stop are the end, the first unregistered name, a killed playbook, and an unknown alert |
| `Execution.RecordedRun` | src/opensoar/worker/tasks.py:125-160 | The i-th recorded run names the i-th playbook, the alert, the sequence, position i of the number of names, and how its playbook ended |
| `Execution.SummaryTellsRun` | src/opensoar/worker/tasks.py:141-151 | What the sequence reports of a playbook, its run, position and status, is what that run's row says |
| `Execution.SequenceSharesId` | src/opensoar/core/executor.py:54-67 | The runs of a sequence share one correlation id if and only if there was one to take over or there is at most one run |
| `Retry.Invoke` | src/opensoar/core/decorators.py:92-158 | The loop goes on past an attempt exactly when retries are left and it neither returned and was recorded nor was interrupted; the wrapper yields a value if and only if some attempt in reach does, that of the first; otherwise the last attempt's error or the recorder's; the one row written tells attempt, status, output and error; no attempt for a negative retry count; the time spent is the calls' and the pauses' |
| `Retry.PausesMonotone` | src/opensoar/core/decorators.py:123 | More retries never wait less in total |
| `Retry.PausesGeometric` | src/opensoar/core/decorators.py:123 | The pauses are the geometric sum of the backoff: with base b and k pauses, b - 1 times their total is b to the k+1 less b |
| `Retry.TimeoutsIsProduct` | src/opensoar/core/decorators.py:103-105 | The bound on the calls is the number of attempts times the timeout |
| `Retry.SpentOn` | src/opensoar/core/decorators.py:103-105 | The time in calls counts each of the calls made once, and no other |

## Left out

- RetentionSafety.LifetimeSafety: a purge is one step of a run, so edits by other transactions between its statements are not modelled.
- Retention.Session.RunRetentionPurge: the audit row keeps its time, counts and grace period, not its text and its actor; a row is reduced to the fields the purge reads.
- Scheduler.Scheduler.Tick: jobs are not registered or removed while a pass is under way, and the job table is not shared with a second pass.
- TickProtocol.LockTtlExact: all processes read one wall clock and their monotonic clocks advance with it; a `SET` that raises may or may not have stored the key.
- Inflight.MutualExclusion: one backend for the whole run, each task clears its slot once, and the Redis path is the same table; switching to the fallback halfway is not modelled.
- EnrichmentCache.EnrichmentCache.GetOrFetch: JSON is a pair of partial functions, so no claim that a stored payload decodes to itself; the digest of `KeysCoincide` is any function to colon-free strings.
- EnrichmentCache.CacheMetrics.Record: the per-source invalidation counts are not claimed to add up to the global one, because the code adds 1 to one and the number of keys to the other.
- AlertRecords.AlertRecord.ApplyUpdate: activity texts, which also quote the resolve reason, and the analyst's name are left out, the recorded old and new values are kept; a failed commit leaves the alert as it was.
- AlertAudit.TrailReconstructsStatus: example playbooks that assign the status directly, without an activity, are not among the operations.
- CountSpike.SpikeInIntegers: exact reals with an exact square root as a parameter instead of floating point, and the default threshold of 3.
- AnomalySignals.Detector.NewSeverityPass: signals carry their key and, for a severity, its rank; scores and details are left out.
- AnomalyRuns.AnomalyTable.RunAnomalyDetection: the alerts come as a sequence in some order, all with a creation time, and the rows are stamped no earlier than the run's clock reading.
- RateLimitLoop.ReadingsInOrder: one event loop and one process, as the module-level state of the limiter has it; a request may be resumed in any order, which covers every scheduling policy.
- Cosine.CosineSimilarity: exact reals, with an exact square root as a parameter.
- Mentions.ParseMentionTokens: word characters are the ASCII ones, and lowercasing is ASCII.
- Triggers.PlaybookRegistry.GetPlaybooksForTrigger: the language's sort is an insertion sort; condition values are null, scalars and lists, without Python's equality across types.
- Ingest.Session.ProcessWebhook: webhooks are processed one after the other; the normalised fields other than the key are one payload text; enrichment is not started.
- Execution.PlaybookExecutor.Execute: the database accepts the rows and the final commit, which fails when a playbook has left the shared session unusable and would then be a further reason for a sequence to stop; run times, results and metrics are left out; an alert is named by its position in a table that only grows.
- Execution.PlaybookExecutor.ExecuteSequence: Celery's retry of a failed sequence, which runs its playbooks again, is not modelled.
- Retry.Invoke: `wait_for` is assumed to cut a call off at the timeout; a recorder that raises has written nothing; error texts are reduced.
- Observable extraction from an alert's indicators, the choice of enrichment sources and the queue priority: easy members beside the claim table.
- HTTP routing, authentication, tenant plugins (a bulk request carries the set of alerts they deny), dashboards, connectors, language-model clients, migrations and the user interface.
- SQL, Redis, Celery and asyncio: tables, maps with expiry and arguments stand for them.
