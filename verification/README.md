# Verification of ProxyGateway's request path

ProxyGateway is an AI gateway. A chat request names a model or an alias; the gateway resolves it to
upstream models, checks policy, rate limit and token quota, forwards it to the models in turn until
one accepts, and records the outcome. This project models the state machines behind that path in
Dafny and proves what they promise, one call at a time and over whole runs:

- the sliding-window rate limiter and its retry-after (`limiter.dfy`, `limiter_retry.dfy`);
- the per-target circuit breaker and alias resolution over it (`circuit.dfy`, `routing.dfy`);
- token quotas, with requests overlapping between check and charge (`quota.dfy`);
- the chat handler's gates, fallback loop and accounting (`dataplane.dfy`, `telemetry.dfy`,
  `pipeline.dfy`);
- whole runs of the gateway: `gateway.dfy` defines them, `quarantine.dfy` bounds how often a dead
  upstream is bothered, `quarantine_runs.dfy` the same for overlapping requests, `budgets.dfy` what a
  key can get through, `throttling.dfy` what a throttled client is told, and
  `refinement.dfy` that the handler keeps the rules of the overlapping models;
- policy decisions, key administration by ID, the bounded audit log and resumable migrations
  (`policy.dfy`, `auth.dfy`, `management.dfy`, `audit.dfy`, `migrator.dfy`).

`common.dfy`, `text.dfy` and `spacing.dfy` hold the shared option type, the time units, the string
operations and the counting of spaced moments.

## How it is built

Each component that updates state in place is a class with the fields of the original (the
limiter's entries, the breaker's target states and the quota's counters are objects behind a map,
as in the source). Its methods are proved against functions on plain values: `Limiter.Step` and
`Limiter.Answer`, `Circuit.Step` and `Circuit.Admits`, `Quota.Charged`, `DataPlane.After` and
`DataPlane.Answer`. The run theorems are about these functions, so they hold of the objects.

Every locked method body of the original is one atomic step, and the theorems about a single
component (`Limiter`, `LimiterRetry`, `Circuit`, `QuarantineRuns`, `QuotaRuns`, `Audit`) hold for
every interleaving of such steps. The clock is read inside the lock, so it is a parameter that never
runs backwards along a run. What the upstream replies, and when, is an arbitrary script (`DataPlane.Env`). A key is the value
it had when the request was authenticated.

## Where the code does less, or other, than the obvious claim

- The windows of both kinds share one map. The minute bound holds for exactly the pairs of IDs whose
  slots differ, while the one-second bound survives any sharing
  (`Limiter.MinuteBoundNeedsDistinctSlots`); IDs not ending in `:rps` are safe
  (`Limiter.PlainIdsAreSeparate`).
- Retry-after is exact as long as the limit is not lower than it has been
  (`LimiterRetry.RetryAfterIsExact`). After a limit was lowered, a retry at the announced moment can
  still be refused (`LimiterRetry.LoweredLimitBreaksRetryAfter`).
  `LimiterRetry.RetryAdmittedFromFreeOn` gives the exact time for any earlier limits, and
  `LimiterRetry.ExactlyWhenOldestFrees` says exactly when the announced wait is that time: when the
  admission that has to leave is as old as the oldest. A slot fuller than the limit alone does not
  decide it (`LimiterRetry.TiedAdmissionsLeaveTogether`).
- `README.md:53` of the repository promises RPM and RPS limits, and a key carries both
  (`internal/auth/auth.go:33-34`, `internal/auth/auth.go:72-73`, `internal/api/management.go:342-347`); the chat handler only ever
  calls `Allow`, never `AllowRPS`. A positive limit per second is kept in all runs if and only if the
  limit per minute is positive and no higher (`Budgets.PerSecondOnlyByMinute`);
  `Budgets.BurstExceedsSecond` is the burst that exceeds it otherwise.
- The comment at `internal/quota/quota.go:29-31` speaks of reserving the estimate; nothing is
  reserved. `QuotaRuns.OvershootBound` is the bound that follows, and
  `QuotaRuns.OvershootIsAttained` shows that no smaller one does for any positive limit and estimate.
- The comment at `internal/routing/circuit.go:77` speaks of a canary probe; from HALF_OPEN every
  caller is admitted, as `Circuit.AllowByHistory` says and `Circuit.HalfOpenAdmitsMore` shows.
- Policy is evaluated for the primary target only. All models sent to are permitted, whatever the
  upstream does, exactly when the whole fallback chain is (`Pipeline.FallbackPolicy`);
  `Pipeline.FallbackReachesDenied` is a request that is sent to a model its key is denied.
- An alias may list a target twice (`internal/api/management.go:511-528` rejects only an empty list);
  `Pipeline.NoModelSentTwice` says exactly when no model is sent to twice, and
  `Pipeline.RepeatedTargetSentTwice` shows one that is. `Quarantine.QuarantineBound` counts such
  repetitions, and `Quarantine.QuarantineIsAttained` shows that they cost what it says. An empty target is skipped until a target has been chosen; resolution fails exactly when
  every admitted target is empty (`Routing.AliasResolutionFails`).
- The comment at `internal/api/dataplane.go:314-316` says the summary counts the case of transport
  errors only; it counts whenever the last attempt was one, whatever came before
  (`Pipeline.ErrorAccounting`; `Pipeline.SummaryCountsBesideStatus` is a request that is counted both
  ways).
- The comment at `internal/audit/audit.go:69` says keys and values are examined; only the names are
  (`Audit.ExactlySensitiveNamesAreHidden`; `Audit.HarmlessNameKeepsSecret` is a secret stored as it is).
- Adding to an allow list never takes access away, except for the first entry, which takes away
  everything it does not cover (`Policy.PermissionIsMonotone`, `Policy.FirstAllowListRestricts`).

## Model

| member | source | states |
|---|---|---|
| `Limiter.MemoryLimiter.constructor` | internal/limiter/limiter.go:26-30 | A new limiter is in the state of the empty run. |
| `Limiter.MemoryLimiter.Allow` | internal/limiter/limiter.go:33-73 | Verdict, remaining, wait and the whole new store of a minute-metered call; a limit that is not positive changes nothing and reports 999999 remaining. |
| `Limiter.MemoryLimiter.AllowRPS` | internal/limiter/limiter.go:75-111 | The same over one second, in the slot named after the key with the suffix `:rps`. |
| `Limiter.MemoryLimiter.Slide` | internal/limiter/limiter.go:41-72 | The locked section: only the caller's slot changes, to the live entries plus the admitted call. |
| `Limiter.MemoryLimiter.Purge` | internal/limiter/limiter.go:50-57 | The purge loop keeps exactly the timestamps later than the window start, in order. |
| `Limiter.RemainingByHistory` | internal/limiter/limiter.go:59-72 | In any run, for a meter with a slot of its own: an admitted call is told its limit minus all live admissions, its own included, and a refused one is told none. |
| `Limiter.WindowLengths` | internal/limiter/limiter.go:42-57 | One admission under a limit of one keeps the next out for exactly 60,000,000,000 nanoseconds, or 1,000,000,000 for a limit per second. |
| `Limiter.PurgeKeepsEveryLiveAdmission` | internal/limiter/limiter.go:50-57 | In any run in which a meter shares its slot with no other, the store and the full history of its admissions agree on everything a later window can see, although purging forgets. |
| `Limiter.AllowRefinesFullHistory` | internal/limiter/limiter.go:44-72 | For a meter with a slot of its own, a call is admitted if and only if fewer than its limit of all admissions ever made lie strictly after now minus the window; limits may vary and other meters interleave. |
| `Limiter.WindowBound` | internal/limiter/limiter.go:41-72 | In any run no window (t - window, t] holds more admissions of a meter than the largest limit used on it: for minute meters with a slot of their own, and for every one-second meter, whoever shares its slot. |
| `Limiter.SpanBound` | internal/limiter/limiter.go:41-72 | For the same meters, any span of length T holds at most limit * (T / window + 1) admissions. |
| `Limiter.PlainIdsAreSeparate` | internal/limiter/limiter.go:84-90 | Meters whose IDs do not end in `:rps` never share a slot. |
| `Limiter.MinuteBoundNeedsDistinctSlots` | internal/limiter/limiter.go:84-98 | The minute bound of an ID beside RPS calls of another holds in all runs if and only if their slots differ; the one-second bound holds in all runs of whatever meters. |
| `Limiter.CollidingRunBreaksBound` | internal/limiter/limiter.go:92-98 | The run that breaks the bound when they do not: the one-second purge forgets the minute window. |
| `LimiterRetry.RejectionNamesOldestExpiry` | internal/limiter/limiter.go:60-67 | A rejection announces the expiry of the oldest live admission: a positive wait of at most one window, so the branch for a negative wait is dead. |
| `LimiterRetry.RejectionMeansExactlyFull` | internal/limiter/limiter.go:59-67 | If no higher limit was used before, exactly the limit is live at a rejection. |
| `LimiterRetry.NobodyAdmittedWhileWaiting` | internal/limiter/limiter.go:59-67 | Until the slot has room, which is never before the announced moment, every call on that meter under a limit no higher is refused, whatever limits were in force before and whatever other meters do. |
| `LimiterRetry.RetryAfterIsExact` | internal/limiter/limiter.go:59-67 | With a limit not lowered, a later call under the same limit is admitted if and only if the announced wait is over, whatever calls under a limit no higher come during the wait. |
| `LimiterRetry.RetryAdmittedFromFreeOn` | internal/limiter/limiter.go:59-67 | For any earlier limits and any waiting calls in between, a later call under the same limit is admitted if and only if the limit-th last live admission has left the window. |
| `LimiterRetry.ExactlyWhenOldestFrees` | internal/limiter/limiter.go:59-67 | The announced wait is exact for all retries if and only if that admission is as old as the oldest one in the slot, which can be read off the slot at the rejection. |
| `LimiterRetry.LoweredLimitBreaksRetryAfter` | internal/limiter/limiter.go:59-67 | A concrete run in which the limit is lowered and the retry at the announced moment is refused. |
| `LimiterRetry.TiedAdmissionsLeaveTogether` | internal/limiter/limiter.go:59-67 | A concrete slot fuller than its lowered limit whose announced wait is exact all the same. |
| `Circuit.CircuitBreaker.constructor` | internal/routing/circuit.go:50-61 | A positive threshold and a positive cooldown are kept; otherwise they are 5 failures and 30 seconds. No target is known. |
| `Circuit.CircuitBreaker.Allow` | internal/routing/circuit.go:64-83 | The answer, and the one entry that may turn from OPEN to HALF_OPEN. |
| `Circuit.CircuitBreaker.RecordSuccess` | internal/routing/circuit.go:86-94 | Closes and zeroes a known target from any state; unknown targets stay unknown. |
| `Circuit.CircuitBreaker.RecordFailure` | internal/routing/circuit.go:97-113 | Counts and dates the failure in that target's entry only, created CLOSED if new, OPEN from the threshold on. |
| `Circuit.CircuitBreaker.GetState` | internal/routing/circuit.go:116-130 | Reports HALF_OPEN for a cooled-down OPEN entry without writing anything. |
| `Circuit.TableIsFaithful` | internal/routing/circuit.go:64-113 | In every run an entry's counter is the trailing run of failures, it is CLOSED exactly below the threshold, dated by the last failure, and HALF_OPEN only after a full cooldown. |
| `Circuit.AllowByHistory` | internal/routing/circuit.go:64-83 | Allow refuses if and only if the failures since the last success reach the threshold and the last is less than one cooldown old. |
| `Circuit.HalfOpenAdmitsMore` | internal/routing/circuit.go:73-82 | A concrete target whose cooldown is over: two callers at one moment are both admitted. |
| `Circuit.StateByHistory` | internal/routing/circuit.go:116-130 | GetState is a function of the same history, and is OPEN if and only if Allow would refuse at that time. |
| `Circuit.AsksAreUnobservable` | internal/routing/circuit.go:73-82 | Two runs that differ only in their Allow calls answer every later Allow and GetState alike. |
| `Circuit.HalfOpenTransitions` | internal/routing/circuit.go:73-112 | HALF_OPEN is entered only from OPEN by an Allow after a cooldown; one failure reopens it; a success closes from any state; nothing else moves it. |
| `Circuit.AdmittedAfterCooldown` | internal/routing/circuit.go:74-78 | A target without new failures is admitted again once the cooldown is over. |
| `Routing.Engine.constructor` | internal/routing/engine.go:27-45 | The five built-in aliases and their targets, over the given breaker or a new one with the default threshold and cooldown. |
| `Routing.Engine.SetAlias` | internal/routing/engine.go:48-52 | Replaces the targets of the lower-cased alias and no other: every spelling of it in whatever case is listed with the new targets. |
| `Routing.Engine.DeleteAlias` | internal/routing/engine.go:66-75 | Removes the alias whatever its case, so that every spelling of it is a direct model again, or reports that there is none. |
| `Routing.Engine.Resolve` | internal/routing/engine.go:78-123 | Fails if and only if there is no candidate; otherwise target and fallback chain are the candidates in order, with the reason text; every target is asked about once, in order. |
| `Routing.CaseOfAliasIsIrrelevant` | internal/routing/engine.go:82-83 | Two spellings of an alias that differ at most in the case of letters have the same targets and the same candidates. |
| `Routing.CodingInCapitals` | internal/routing/engine.go:28-45 | The built-in alias asked for as `CODING` or `Coding` gives cc-sonnet, then cc-haiku, with the reason RESOLVED_ALIAS_CODING. |
| `Routing.DirectModelKeepsItsCase` | internal/routing/engine.go:85-95 | A model that is no alias is asked about, and sent on, in the spelling of the request. |
| `Text.LowerCharIsTable` | internal/routing/engine.go:82 | Each of the 26 capitals is lowered to its small letter and every other character stays. |
| `Text.FoldIgnoresExactlyCase` | internal/policy/engine.go:59 | Two strings are equal under folding if and only if they are equally long and differ at most between a capital and its small letter. |
| `Routing.Engine.ScanTargets` | internal/routing/engine.go:98-110 | The loop splits the healthy targets into chosen and fallback while its own queries change the breaker. |
| `Routing.HealthyIsFiltered` | internal/routing/engine.go:102-110 | The outcome is as if each target had been looked up in the breaker as it stood before the request. |
| `Routing.UsableSkipsOnlyEmpty` | internal/routing/engine.go:104-108 | Only leading empty targets are dropped. |
| `Routing.FilteredElements` | internal/routing/engine.go:102-110 | The filtered list holds a target if and only if one of its occurrences is admitted. |
| `Routing.AliasResolutionFails` | internal/routing/engine.go:102-115 | An alias cannot be resolved if and only if every non-empty target is refused. |
| `Routing.DistinctWhenTakenOnce` | internal/routing/engine.go:98-115 | What an alias resolves to holds no target twice if and only if no target is listed twice and taken over by the loop both times. |
| `Quota.MemoryQuota.Allow` | internal/quota/quota.go:32-52 | Allowed if and only if, for the day and for the month, there is no positive limit or usage plus estimate is at most it; what remains after it; no usage changes. |
| `Quota.MemoryQuota.Record` | internal/quota/quota.go:55-65 | Adds the tokens to both counters of that key and to no other key. |
| `QuotaRuns.UsageIsWhatWasAccepted` | internal/quota/quota.go:55-65 | However requests overlap, daily and monthly usage are equal and are the tokens of the accepted requests. |
| `QuotaRuns.OvershootBound` | internal/quota/quota.go:32-65 | With at most k requests in flight and estimates of at most M, usage plus everything in flight never exceeds limit + (k - 1) * min(M, limit). |
| `QuotaRuns.SequentialNeverExceeds` | internal/quota/quota.go:32-65 | With one request of the key at a time, the limit is never exceeded. |
| `QuotaRuns.OvershootIsAttained` | internal/quota/quota.go:32-65 | For every positive limit, k and M there is a run that ends exactly at that bound. |
| `Refinement.QuotasAreOneAtATime` | internal/api/dataplane.go:234-337 | A run of requests one at a time is a run of the quota's overlap model with one in flight and the same usage. |
| `DataPlane.DataPlaneHandler.Validate` | internal/api/dataplane.go:150-191 | A request gets to the gates if and only if it is a POST with a key where keys are required, a readable JSON body, a model and a message; each status and code is given exactly for the first of these that is missing. |
| `DataPlane.DataPlaneHandler.RateGate` | internal/api/dataplane.go:220-232 | Only keys with a positive limit touch the limiter. |
| `DataPlane.DataPlaneHandler.KeyGates` | internal/api/dataplane.go:209-245 | Policy, rate, quota in that order; a gate behind the one that objects is not touched. |
| `DataPlane.DataPlaneHandler.Gates` | internal/api/dataplane.go:193-245 | The stage a valid request gets to, its candidates and the exact state of breaker, limiter and quota afterwards. |
| `DataPlane.DataPlaneHandler.TryTarget` | internal/api/dataplane.go:268-306 | One send and one report to the breaker; accepted if and only if a status came back that is below 500 and neither 401 nor 429, and one count exactly for a status that is not. |
| `DataPlane.DataPlaneHandler.ForwardInTurn` | internal/api/dataplane.go:256-307 | The attempts are a prefix of the targets up to the first accepted reply; the loop's variables describe the last attempt. |
| `DataPlane.DataPlaneHandler.ReportFailure` | internal/api/dataplane.go:309-326 | 502 with the code of the last status, or UPSTREAM_UNREACHABLE and its one count if there is none. |
| `DataPlane.DataPlaneHandler.RecordUsage` | internal/api/dataplane.go:328-337 | Token count and duration sample under the model that accepted; an authenticated key is charged its estimate. |
| `DataPlane.DataPlaneHandler.Deliver` | internal/api/dataplane.go:256-340 | Forwarding as a whole: charged exactly when accepted, and the errors counted over all attempts. |
| `DataPlane.DataPlaneHandler.ChatCompletions` | internal/api/dataplane.go:147-382 | Response, state of every component, attempts sent and collectors after any request. |
| `DataPlane.DataPlaneHandler.ListModels` | internal/api/dataplane.go:106-144 | The listing is the subsequence of exactly the permitted upstream models, in order, with owner and date; no key where one is required is 401, an unreadable upstream 502. |
| `Telemetry.Metrics.ObserveServed` | internal/telemetry/metrics.go:96-106 | One request count; a duration sample if and only if the path is not /v1/chat/completions or the status is 401, 429 or at least 500. |
| `DataPlane.DataPlaneHandler.ServeChat` | internal/telemetry/metrics.go:94-106 | Handler and middleware together: a relayed status is below 500 and neither 401 nor 429; one duration sample is left for a relayed request, under its model, or for one that ended in 401, 429 or at least 500, and none otherwise. |
| `Pipeline.TriedStops` | internal/api/dataplane.go:268-307 | The loop stops after the first accepted reply and nowhere else. |
| `Pipeline.LoopByStatus` | internal/api/dataplane.go:268-307 | Whatever the upstream replies: after a transport error, a 401, a 429 or a status of at least 500 the breaker hears a failure and the next candidate is tried, if there is one; at any other status the breaker hears a success, the loop stops and exactly that status is relayed as that candidate's. |
| `Pipeline.ThrottledThenAccepted` | internal/api/dataplane.go:268-307 | A concrete request whose first target answers 429: the fallback is tried and its 200 relayed, with one failure, one success and one UPSTREAM_RATE_LIMIT count. |
| `Pipeline.GatesInOrder` | internal/api/dataplane.go:193-245 | A valid request is 503 if and only if it has no candidate; without a key it goes through; with one it is 403, 429 with a wait, or 429 for its quota if and only if policy, rate limit or quota is the first to object to its first candidate. |
| `Pipeline.CandidatesAreHealthy` | internal/api/dataplane.go:193-203 | A valid request's candidates are its alias's targets, or its model, filtered by the breaker as it stood, without leading empty ones. |
| `Pipeline.AttemptsFollowRouting` | internal/api/dataplane.go:256-307 | The models sent to are in order a prefix of the candidates, ending at the first accepted reply or covering all; the request is relayed if and only if some candidate would accept. |
| `Pipeline.ReportsAreResults` | internal/api/dataplane.go:276-302 | Beside its queries a request tells the breaker exactly one result per attempt. |
| `Pipeline.OneReportPerAttempt` | internal/api/dataplane.go:276-302 | No model is sent to more often than the alias lists it, once if the targets are distinct; exactly the real outcome of each time is reported for it. |
| `Pipeline.NoModelSentTwice` | internal/api/dataplane.go:256-307 | No model is sent to twice under any replies if and only if no target is listed twice and taken over from the alias both times. |
| `Pipeline.RepeatedTargetSentTwice` | internal/api/dataplane.go:256-307 | A concrete request that is sent to one model twice. |
| `Pipeline.StatusErrorsCount` | internal/api/dataplane.go:286-290 | The loop's counts under a code are the number of attempts with a failing status of that code. |
| `Pipeline.ErrorAccounting` | internal/api/dataplane.go:264-326 | One count per failing status, one UNREACHABLE count if and only if all failed and the last was a transport error; the reported code is the last attempt's. |
| `Pipeline.ErrorsByStatus` | internal/api/dataplane.go:286-326 | The counts are the attempts answered 401, 429 and from 500 on, each under its own name, and one for no answer at the end; a failed request reports the name belonging to its last attempt. |
| `Pipeline.SummaryCountsBesideStatus` | internal/api/dataplane.go:286-319 | A concrete request that fails with a status and then gets no answer: both counts are made. |
| `Pipeline.OnlyAcceptedIsCharged` | internal/api/dataplane.go:309-337 | Exactly the relayed authenticated requests change usage, their own key's, by their estimate; a refused one sends nothing and reports nothing to the breaker. |
| `Pipeline.TokensByNumbers` | internal/api/dataplane.go:328-332 | A relayed request adds a quarter of its messages' bytes, rounded down, to the token series of its key (or of unknown) and the model that accepted, and to no other; any other request adds nothing. |
| `Pipeline.FallbackPolicy` | internal/api/dataplane.go:209-218 | The first model an authenticated request is sent to was permitted when evaluated; every model sent to is permitted under any replies if and only if the whole fallback chain is, that is, every target taken over from the alias by the breaker as it stood. |
| `Pipeline.FallbackReachesDenied` | internal/api/dataplane.go:209-218 | A concrete request that passes the gates and is then sent to a model its key is denied. |
| `Gateway.RunsAreExplained` | internal/api/dataplane.go:193-307 | Over any run the breaker and limiter are in the state their own operation histories lead to. |
| `Gateway.RunsAreTimely` | internal/routing/circuit.go:73-108 | Requests one at a time give the breaker a history on which its clock never runs backwards. |
| `Quarantine.RunsAreWatched` | internal/routing/engine.go:102-110 | While a target that no alias lists more than m times never succeeds, each attempt from the (threshold + m)-th on starts a full cooldown after the one m before it finished. |
| `Quarantine.QuarantineBound` | internal/routing/circuit.go:64-113 | In any run of requests one at a time in which a target never succeeds and no alias lists it more than m times, at most threshold - 1 + m * (1 + T / cooldown) attempts on it start within any span T; for distinct targets that is threshold + T / cooldown. |
| `Quarantine.QuarantineIsAttained` | internal/routing/circuit.go:64-113 | For every threshold, cooldown, m and T there is a run of requests one at a time that makes exactly that many attempts, so the bound cannot be lowered. |
| `QuarantineRuns.RunsKeep` | internal/routing/circuit.go:64-113 | However the queries, attempts and reports of at most k requests overlap, once tripped each attempt on a model that never succeeds starts a cooldown after the one k * m before it: all that may still follow before the next admission is bounded. |
| `QuarantineRuns.OverlapBound` | internal/routing/circuit.go:64-113 | With at most k requests on their way, each asking for the model at most m times, at most threshold - 1 + k * m * (1 + T / cooldown) attempts on a model that never succeeds start within any span T. |
| `QuarantineRuns.OverlapIsAttained` | internal/routing/circuit.go:64-113 | For every threshold, cooldown, k, m and T there is an overlapping run that makes exactly that many attempts. |
| `Refinement.SentAtMostAdmitted` | internal/api/dataplane.go:193-307 | A valid request sends to a model at most as often as its queries of that model were admitted. |
| `Refinement.RequestFollows` | internal/api/dataplane.go:193-307 | What one request of the handler does concerning a model that does not succeed is a path of the overlap model: it comes in, asks, sends only what was admitted, and leaves. |
| `Refinement.SequentialIsOneAtATime` | internal/api/dataplane.go:193-307 | A run of requests one at a time is a run of the overlap model with k = 1 and the same attempts, so the overlap bound speaks of the handler. |
| `Budgets.SlotsAreUsedByPassing` | internal/api/dataplane.go:220-232 | A limiter slot is used by exactly the metered requests that pass routing, policy and the rate test, at the time of the test. |
| `Budgets.RequestsPerMinute` | internal/api/dataplane.go:220-232 | In any run no minute sees more of a key's metered requests pass the rate test than the largest limit they carry. |
| `Budgets.SecondWithinMinute` | internal/api/dataplane.go:220-232 | In any run in which a key's limit per minute is positive and no higher than its limit per second, no second sees more of its requests pass the rate test than the latter. |
| `Budgets.BurstExceedsSecond` | internal/api/dataplane.go:220-232 | A concrete burst of one request more than the limit per second, all past the rate test at one moment, unless a limit per minute no higher stops it. |
| `Budgets.PerSecondOnlyByMinute` | internal/api/dataplane.go:220-232 | The promised limit per second is kept in all runs of a key if and only if it is not positive (no limit) or the limit per minute is positive and no higher. |
| `Budgets.UsageIsConserved` | internal/api/dataplane.go:334-337 | In any run a key's daily and monthly usage are equal and are the estimates of exactly its relayed requests. |
| `Budgets.QuotaNeverExceeded` | internal/api/dataplane.go:234-245 | Requests one at a time never take a key past its quota. |
| `Throttling.ThrottledIsTold` | internal/api/dataplane.go:225-230 | In any run a 429 of the rate test carries a header of 1 to 61 seconds that exceeds the wait by at most one second (section 10.2.3 of RFC 9110: a delay in seconds). |
| `Throttling.RetryPassesWhenFree` | internal/api/dataplane.go:220-232 | In any run, whatever the key's limits were before, its next request under the limit it was throttled under passes the rate test if and only if the slot has room by then, which is never before the announced wait is over. |
| `Throttling.WaitIsExact` | internal/api/dataplane.go:220-232 | In any run, if the key's limit had not been lowered, its next request under that limit to reach the rate test passes if and only if the announced wait is over, whatever requests under limits no higher came during the wait. |
| `Throttling.HeaderIsEnough` | internal/api/dataplane.go:225-226 | A client whose limit had not been lowered, whose other requests all come during the announced wait and under limits no higher, and who waits as long as the header says, is not throttled again. |
| `Policy.Engine.SetGlobalDeny` | internal/policy/engine.go:34-38 | Replaces both global deny lists. |
| `Policy.Engine.EvaluateModel` | internal/policy/engine.go:49-86 | Allowed if and only if a key is given, no entry of a deny list covers the model and the allow list is empty or has one that does, where the wildcard covers everything; each reason exactly when it is the first rule broken. |
| `Policy.Engine.EvaluateProvider` | internal/policy/engine.go:89-126 | The same for providers. |
| `Policy.CoversByLetters` | internal/policy/engine.go:59-75 | An entry covers an ID if and only if it is the wildcard or the same but for the case of letters. |
| `Policy.WildcardDeniesAll` | internal/policy/engine.go:58-69 | With the wildcard in either deny list nothing is permitted, whatever the allow list says. |
| `Policy.WildcardAllowsAll` | internal/policy/engine.go:72-83 | An allow list with the wildcard permits exactly what no allow list does. |
| `Policy.DenialsOfSonnet` | internal/policy/engine.go:66 | Concrete deny lists: the wildcard and CC-Sonnet refuse cc-sonnet, cc-haiku does not. |
| `Policy.PermissionIsMonotone` | internal/policy/engine.go:57-85 | Extending deny lists never permits more; extending a non-empty allow list never permits less. |
| `Policy.FirstAllowListRestricts` | internal/policy/engine.go:72-83 | A first allow list leaves, of what was permitted without one, exactly what it covers. |
| `Policy.PermissionIgnoresCase` | internal/policy/engine.go:59-75 | Two spellings of an ID that differ at most in the case of letters are permitted alike. |
| `Policy.PermissionIgnoresEntryCase` | internal/policy/engine.go:59-75 | Spelling the entries of the lists in another case changes no decision. |
| `Auth.MemoryKeyStore.GetByHash` | internal/auth/auth.go:108-117 | Finds a key if and only if the store holds one for the hash; the key found has that hash and the stored value. |
| `Auth.MemoryKeyStore.Create` | internal/auth/auth.go:120-126 | Every key stays stored under its own hash; no other key changes. |
| `Auth.MemoryKeyStore.List` | internal/auth/auth.go:129-138 | New copies of exactly the stored keys, each once, so a caller's writes cannot reach the store. |
| `Auth.MemoryKeyStore.Update` | internal/auth/auth.go:141-149 | Replaces a key that is there, and otherwise nothing. |
| `Auth.MemoryKeyStore.Delete` | internal/auth/auth.go:152-160 | Removes exactly that key, or reports that there is none. |
| `Management.ByIdUpdates` | internal/api/management.go:387-434 | Writing a key under its hash is writing it under its ID, and IDs stay unique. |
| `Management.PatchTakesOnlySupplied` | internal/api/management.go:403-433 | Field by field: a positive limit, a present list or flag and a name that is not empty replace the old value; a limit that is not positive, an absent list or flag and an empty name leave it; identity, expiry, tokens per minute, budget and creation date always stay. |
| `Management.RenameKeepsTheRest` | internal/api/management.go:403-433 | A request with a name alone changes the name and the date: in particular the four limits stay. |
| `Management.ManagementHandler.CreateKey` | internal/api/management.go:320-374 | By ID: the new key is enabled and unrestricted with 60 requests per minute, 10 per second, 1,000,000 tokens a day and 30,000,000 a month, each unless the request supplies it, and every other key is as before; an undecodable body, a missing name or a failed generation changes nothing, each with its status. |
| `Management.ManagementHandler.UpdateKey` | internal/api/management.go:377-441 | By ID, undisturbed: only the named key changes, field by field only in what the request supplies and its date; an undecodable body or an unknown ID changes nothing; key objects already handed out are never written to. |
| `Management.ManagementHandler.FinishUpdate` | internal/api/management.go:403-437 | With other administrators acting since the key was read: a key deleted meanwhile is an internal error and does not come back, one changed meanwhile is overwritten from the older copy with, field by field, what the request supplies; no other key changes. |
| `Management.ManagementHandler.DeleteKey` | internal/api/management.go:444-471 | By ID, undisturbed: exactly the named key goes; an unknown one, or one without a hash, is not found. |
| `Management.ManagementHandler.FinishDelete` | internal/api/management.go:465-470 | With others acting since the hash was looked up: exactly the key of that hash goes, one deleted meanwhile is an internal error. |
| `Management.ManagementHandler.CreateThenDelete` | internal/api/management.go:320-471 | Creating a key and deleting it by ID restores the store. |
| `Audit.MemoryStore.constructor` | internal/audit/audit.go:54-62 | Empty, with the given cap or 10,000. |
| `Audit.MemoryStore.Sanitize` | internal/audit/audit.go:70-78 | The loop's result does not depend on the order in which the map is visited. |
| `Audit.MemoryStore.ShiftDown` | internal/audit/audit.go:84 | The overlapping copy moves the kept tail to the front unharmed. |
| `Audit.MemoryStore.Log` | internal/audit/audit.go:65-87 | Appends the redacted event and keeps the latest, at most the cap, in order. |
| `Audit.MemoryStore.List` | internal/audit/audit.go:90-97 | A fresh copy of what is stored. |
| `Audit.MemoryStore.LogAllAfterList` | internal/audit/audit.go:65-97 | A snapshot is unaffected by any logging after it. |
| `Audit.KeepsTheLatest` | internal/audit/audit.go:81-85 | After any run the store is the last min(n, cap) entries of the whole redacted history. |
| `Audit.ExactlySensitiveNamesAreHidden` | internal/audit/audit.go:69-85 | After any run each stored event is the one logged at its place, with exactly the values under sensitive names replaced by [REDACTED] and every name kept; redacting it again changes nothing. |
| `Audit.SensitiveByWords` | internal/audit/audit.go:71-73 | A name is sensitive if and only if some part of it spells key, password, token or secret in any case. |
| `Audit.HarmlessNameKeepsSecret` | internal/audit/audit.go:69-78 | A concrete event whose secret value under a harmless name is stored. |
| `Migrator.FindUpMigrations` | internal/store/migrator.go:15-30 | The result holds exactly the files whose names end in .up.sql, as often as listed; where two of its names first differ the earlier has the smaller character, and no name comes after a longer one that it begins. |
| `Migrator.SampleDirectory` | internal/store/migrator.go:15-30 | A concrete directory with two up migrations in the wrong order, a down migration and a directory: exactly the two are applied, 000001 first. |
| `Migrator.SortedIsUnique` | internal/store/migrator.go:28 | A sorted list is determined by its contents. |
| `Migrator.ListingOrderIsIrrelevant` | internal/store/migrator.go:16-29 | The migrations of a directory are the same files in the same order, however it is listed. |
| `Migrator.MigrationsDistinct` | internal/store/migrator.go:22-26 | As no name occurs twice in a directory, no version does. |
| `Migrator.ApplyFile` | internal/store/migrator.go:49-86 | A recorded file is skipped; any other is executed and recorded together if nothing fails or only the report of the commit does, and otherwise nothing changes; success is reported exactly when nothing failed. |
| `Migrator.RunMigrations` | internal/store/migrator.go:33-89 | Reads the directory, handles its migrations in order and stops at the first failure; without tracker table or listing nothing changes. |
| `Migrator.PrefixIsKept` | internal/store/migrator.go:49-88 | From a recorded prefix a run ends at a recorded prefix that is no shorter, at the full list if it reports success. |
| `Migrator.MigrationsResume` | internal/store/migrator.go:33-89 | Over any number of starts on one directory failing anywhere, the recorded versions are a prefix of its sorted migrations and exactly that prefix has been executed, each once and in order. |
| `Migrator.SuccessIsFinal` | internal/store/migrator.go:33-89 | After a reported success everything in the directory is applied, and no further start changes anything. |
| `Migrator.FaultlessRunSucceeds` | internal/store/migrator.go:49-88 | Without faults a run succeeds from any state. |
| `Migrator.OnlyMissingAreExecuted` | internal/store/migrator.go:49-88 | From any state, also with gaps, a run executes only files that were not recorded, each at most once, and all of them if it succeeds. |

## Left out

- `Quarantine.QuarantineBound`: is about the gateway's requests one at a time; for overlapping requests the bound is `QuarantineRuns.OverlapBound`, over a step model of what concerns one model.
- `Budgets.QuotaNeverExceeded`: is about requests one at a time; for overlapping requests the bound is `QuotaRuns.OvershootBound`.
- `Quota.MemoryQuota.Record`: does not model the wrap-around of 64-bit counters; token counts are unbounded integers.
- `Management.ManagementHandler.CreateKey`: supposes that a generated ID and hash are not in the store yet; random bytes and SHA-256 are parameters.
- `Management.ManagementHandler.UpdateKey`: is about an administrator acting alone; what happens when others act between listing and writing is `Management.ManagementHandler.FinishUpdate`.
- `DataPlane.DataPlaneHandler.ChatCompletions`: supposes that routing, policy, limiter, quota and metrics are configured; the audit events it emits, the X-RateLimit headers, and the rewriting and streaming of bodies are left out.
- `Telemetry.Metrics.ObserveServed`: records that a sample was taken and under which labels, not how long the request took.
- `Migrator.FindUpMigrations`: works on base names; the common directory prefix does not affect the order. SQL is an opaque content.
- Names are folded to lower case on ASCII letters only; Unicode case folding is left out.
- Go's mutexes: each locked section is one atomic step, and the gateway-wide run theorems take one request at a time.
- HTTP plumbing, authentication of the raw key, JSON encoding, request IDs and logging.
- The upstream client and transport, Postgres and Redis stores, health checks, configuration, the terminal interface and the admin login.
- `GetAliases` and `GetGlobalDeny`, the alias and policy endpoints, and `ListKeys`: plain copies of what the modelled operations hold.
