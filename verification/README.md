# Perzforge: a verified model

Perzforge runs ML jobs for a few users on one node: a FastAPI application in front, a Redis list and
channels in between, a worker agent that runs containers, and a registry of the models the jobs
produce. The modules here model the parts of it that keep state across requests and processes, and
prove what every run of them keeps. `dafny verify dfyconfig.toml` checks the whole project.

Each component comes in two layers. A value layer has the states, the atomic steps with the guards
the code has, and the theorems over all runs. Where the code changes objects step by step, a class
with the same fields has one method per handler, database session or Redis command, and its contract
ties the new state to the step of the value layer.

| module | models |
|---|---|
| `TokenBucket`, `BucketKeys` | the Lua token bucket, its reply headers, and which request is charged to which bucket |
| `JobProtocol`, `JobOutcomes`, `JobSystem`, `JobQuota`, `JobLimits` | submit, enqueue, cancel, pop, mark-running, container exit, finalise, crash and reap as interleaved steps; where each of them leads; the concurrency quota on top; runs showing that the hypotheses are needed |
| `ContainerWait` | the wait loop around a container and the cancel listener |
| `RefreshFamilies`, `SessionClient` | refresh-token rotation with reuse detection, and the browser client composed with it |
| `LogLines`, `LogStream`, `ThinnedRelay` | cutting output into lines, the replay list and the channel under interleaving, and backpressure thinning |
| `QuotaCounters` | the Redis quota counters and check-then-act on a daily one |
| `ObjectStore`, `ModelRegistry`, `RegistryHandlers`, `RegistryLimits` | prefixes and batched deletion, promotion, versions, deletion and storage accounting; runs showing what their conditions are for |
| `WorkerLease` | the singleton lease of the agents, one Redis command per step |
| `Common` | facts about sequences |

Conventions. A database session's read, check and commit is one step; each Redis command is one step;
nothing else is atomic. Ids and tokens are fresh when issued. Outcomes of foreign calls (Docker, a
send that times out, a raising push, whether a user row still exists) are inputs. A `Run` is any
finite sequence of enabled steps from the initial state, so a theorem about runs covers every
interleaving. The denial header is the Retry-After of section 10.2.3 of RFC 9110 with the status of
section 4 of RFC 6585; rotation with reuse detection is that of section 5.2.2.3 of RFC 6819 and
section 4.14.2 of RFC 9700.

Where the code and its documentation differ, the model follows the code:

- The top-level README of Perzforge says the heartbeat lock keeps one writer per node. The lease is
  refreshed only between jobs, so `WorkerLease.TwoAgentsCanWork` gives a run with two working agents;
  `WorkerLease.OneAgentWorksIff` and `TimelyLeaseIsExclusive` say when there is only one.
- The PRD says a reconnecting log viewer resumes from its last line. The code replays the capped list
  and then subscribes; `LogStream.ViewerGetsTwoBlocks` says exactly which messages that misses.
- The registry story says that deleting a model releases quota. `delete_model` releases the caller's
  quota, which is the owner's only when the owner deletes; `ModelRegistry.DeletionIsExactIff` says so.
- The storage counter is meant to follow what is stored, but it expires like the daily ones.
  `ModelRegistry.VanishIsExactIff` says when that breaks the account, and
  `ModelRegistry.StorageBoundAcrossExpiries` what still holds of the bytes stored.
- A model is meant to own its prefix, but job names may hold a slash. `ObjectStore.PrefixStartsIff`
  says exactly which models' prefixes lie under one another.

## Model

| member | source | states |
|---|---|---|
| `TokenBucket.BucketKey.Eval` | api/rate_limit.py:27-64 | one evaluation of the script on the two hash fields leaves the bucket and gives the five-part answer of the value layer, with the key's expiry set |
| `TokenBucket.ExactAdmission` | api/rate_limit.py:27-64 | over every run of calls with non-decreasing times, the refilled level at a call is the minimum, attained, of the room left in all windows ending at it; so the answer from two stored numbers says allowed exactly when a limiter without state admits the call by scanning the whole history |
| `TokenBucket.AnswerIsConsistent` | api/rate_limit.py:43-64 | a call is told it is allowed exactly when its cost was taken and exactly when its wait is zero, a denied one waits at least a second, and the limit is the burst |
| `TokenBucket.AdmissionUnderAnyClock` | api/rate_limit.py:36-41 | for any clocks, backward ones too, the admitted cost is at most the burst plus the rate times the sum of forward jumps, and the stored tokens stay between zero and capacity |
| `TokenBucket.ExpiryIsInvisible` | api/rate_limit.py:31-40 | a run in which the key is dropped at any set of moments after its time to live gives the same replies and the same later buckets as one in which it never is |
| `TokenBucket.TtlIsTight` | api/rate_limit.py:56-60 | the time to live is the least number of milliseconds, from a second up, in which twice the capacity flows in |
| `TokenBucket.DeniedCallLeavesLevel` | api/rate_limit.py:36-55 | a denied call does not change the level the bucket has at any later time |
| `TokenBucket.PollingLeavesLevel` | api/rate_limit.py:36-55 | neither does any number of denied calls in a row |
| `TokenBucket.SecondsForIsTight` | api/rate_limit.py:49-49 | the rounded-up seconds are enough for the missing tokens to flow in, and one second less is not |
| `TokenBucket.RetryAfterIsExact` | api/rate_limit.py:45-53 | after a denial answering r and any further denied polls, a call of that cost is told no up to r - 1 seconds later and yes from r seconds on |
| `TokenBucket.RemainingIsExact` | api/rate_limit.py:62-62 | of the unit calls made at the same instant exactly the first `remaining` pass |
| `TokenBucket.ResetIsTight` | api/rate_limit.py:63-63 | the bucket is full one second after the reset time and not yet full one second before it |
| `BucketKeys.KeyIsInjective` | api/rate_limit.py:214-215 | two tier and identity pairs have the same key only when they are the same pair |
| `BucketKeys.CallersShareABucketIff` | api/rate_limit.py:183-211 | exactly which two callers are charged to one bucket: API keys by their first eight characters, subjects by name, everyone else by address; in the sign-in tier everyone by address |
| `BucketKeys.TiersKeepTheirBudgets` | api/rate_limit.py:85-115 | each tier refills by its own configured budget over its own minute or hour and holds its own burst |
| `BucketKeys.BucketsDoNotInterfere` | api/rate_limit.py:222-249 | in any interleaving of requests to all buckets, one bucket gives exactly the replies it gives when its own requests run alone |
| `BucketKeys.BurstIsExact` | api/rate_limit.py:229-236 | of the requests that find a bucket unused at one instant exactly its burst is allowed, so a request costs one token |
| `BucketKeys.ClampsNeverBite` | api/rate_limit.py:243-249 | the clamps at zero never change what the script answered |
| `BucketKeys.RateLimiter.ConsumeToken` | api/rate_limit.py:222-249 | one request changes only the bucket under its own key and returns that bucket's answer, also when the script has to be loaded again first |
| `JobProtocol.StepNeverGoesBack` | worker/repository.py:42-53 | no step moves a job back in the order queued, running, cancelling, terminal; RUNNING is entered exactly by a mark-running that finds QUEUED |
| `JobProtocol.RunNeverGoesBack` | worker/repository.py:16-83 | the same over any stretch of any run |
| `JobProtocol.AtMostOneContainerRun` | worker/agent.py:45-75 | under any interleaving of submits, cancels, crashes, reaps, repeated queue ids and any number of agents, a job's container starts at most once and a terminal job is never active again |
| `JobProtocol.StepConserves` | api/routers/jobs.py:102-113 | a step keeps each queued job in exactly one place exactly when it is no push from outside or takes in a job that is nowhere, and only two kinds of death lose one |
| `JobProtocol.ForeignPushConservesIff` | api/queue.py:20-21 | a push from outside keeps every job in one place exactly when it takes in a known job that is in none |
| `JobProtocol.ConservedIff` | worker/agent.py:184-197 | over any run with any pushes, jobs are conserved throughout exactly when every push from outside is of that kind |
| `JobProtocol.QueuedJobsAreConserved` | worker/agent.py:184-197 | in such runs each QUEUED job is in exactly one of awaiting its push, the list, one agent's hand, lost; lost grows only by an API death before the push or an agent death between pop and mark-running |
| `JobProtocol.LostJobsNeverStart` | worker/agent.py:45-63 | a lost job is lost for good: no later step starts its container |
| `JobProtocol.ListIsFifo` | api/queue.py:20-21 | what was popped followed by what is still in the list, oldest first, is what was pushed, whoever pushed and popped |
| `JobProtocol.OneAgentStartsInPushOrder` | worker/agent.py:178-197 | with one agent at a time, through crashes and restarts, containers start in push order |
| `JobProtocol.NothingStartsTwice` | worker/repository.py:45-46 | the list of container starts never repeats a job |
| `JobProtocol.StepKeepsOrderIff` | worker/agent.py:184-197 | a start keeps the starts in push order exactly when nothing pushed from that job on has started |
| `JobProtocol.OrderIsKeptIff` | worker/agent.py:184-197 | with any number of agents and distinct pushes, starts stay in push order throughout a run exactly when each job starts before everything pushed after it |
| `JobProtocol.TerminalStatusChangesIff` | worker/repository.py:56-83 | a step replaces a terminal status exactly when it is one of the three unguarded writes and writes another one |
| `JobProtocol.CleanRunsStaySound` | worker/repository.py:16-39 | with one agent per host, clean pushes and specs that still validate, a running agent owns its row, and a cancel it has seen is committed |
| `JobProtocol.TerminalStatusIsFinal` | worker/agent.py:85-159 | in such runs a terminal status is never replaced by a different one |
| `JobProtocol.CancellingWasAccepted` | api/routers/jobs.py:159-174 | a job in CANCELLING got there by an accepted cancel of a running job |
| `JobProtocol.AgentCancelsOnlyOnRequest` | worker/cancel_listener.py:9-25 | in such runs an agent writes CANCELLED only over CANCELLING, which an earlier accepted cancel wrote |
| `JobOutcomes.SubmitIsQueued` | api/routers/jobs.py:92-107 | a submit within the limit ends as a QUEUED row of its user at the head of the list, and touches no other row |
| `JobOutcomes.OldestJobRunsThrough` | worker/agent.py:184-197 | the oldest queued id gets through an idle agent: its container starts on that host, and the row ends with the status of the result |
| `JobOutcomes.FinalStatusIff` | worker/agent.py:93-119 | CANCELLED exactly for a cancelled result, SUCCEEDED exactly for one without timeout, error or a code other than zero, FAILED for the rest |
| `JobOutcomes.LoadedWasQueued` | worker/agent.py:45-50 | a spec is looked at only after its row was read as QUEUED |
| `JobOutcomes.CancelOutcome` | api/routers/jobs.py:159-174 | a queued job becomes CANCELLED, a running one CANCELLING and owes its control message, and anything else is left alone |
| `JobOutcomes.CancelledInTheQueueNeverStarts` | api/routers/jobs.py:165-170 | over any run a job cancelled while QUEUED never starts its container |
| `JobOutcomes.AcceptedCancelIsPublished` | api/routers/jobs.py:172-174 | over any run an accepted cancel of a running job owes its control message until that message is sent |
| `JobOutcomes.PublishNotifiesExactly` | worker/cancel_listener.py:9-25 | the message sets the event of exactly the agents that execute the job and listen, and changes nothing else of agents and jobs |
| `JobOutcomes.SubscribedListens` | worker/cancel_listener.py:10-12 | a subscribed agent listens for its job and has no event for it |
| `JobOutcomes.CancelReachesListener` | worker/agent.py:65-102 | a cancel of a job whose agent listens gets through to CANCELLED |
| `JobOutcomes.ReapSettlesTheHost` | worker/repository.py:16-39 | after a restart the host's CANCELLING rows are CANCELLED, its RUNNING rows FAILED, and no other row has changed |
| `JobLimits.FailedPushReplacesCancelled` | api/routers/jobs.py:106-113 | a run in which a failing push overwrites the CANCELLED written in between |
| `JobLimits.RejectedSpecReplacesCancelled` | worker/agent.py:49-59 | a run in which rejecting a spec overwrites CANCELLED |
| `JobLimits.SecondAgentBreaksFinality` | worker/repository.py:28-37 | a run with two agents on one host in which SUCCEEDED overwrites the reaper's FAILED |
| `JobLimits.SecondAgentBreaksOrder` | worker/agent.py:184-197 | a run with two agents whose containers start in the opposite of push order |
| `JobLimits.RepeatedPushBreaksConservation` | api/queue.py:20-21 | a run in which a repeated id puts one queued job in two places |
| `JobSystem.Tables.EnforceConcurrent` | api/quotas.py:142-165 | the concurrency check passes exactly when one more active job fits, and changes no row |
| `JobSystem.Tables.InsertJob` | api/routers/jobs.py:95-104 | the insert adds one QUEUED row that awaits its push |
| `JobSystem.Tables.EnqueueJob` | api/routers/jobs.py:106-113 | the push puts the id at the head of the list, or marks the row FAILED when it raises |
| `JobSystem.Tables.CancelJob` | api/routers/jobs.py:157-176 | the cancel handler's HTTP status and its effect in every status of the job |
| `JobSystem.Tables.PublishControl` | worker/cancel_listener.py:9-25 | the control message reaches exactly the agents listening for that job |
| `JobSystem.Tables.ReapZombieJobs` | worker/repository.py:16-39 | two updates in that order come to one pass over the host's rows |
| `JobSystem.Tables.MarkJobRunning` | worker/repository.py:42-53 | only a QUEUED row becomes RUNNING, owned by the host |
| `JobSystem.Tables.FinalizeJob` | worker/repository.py:56-83 | the status of an existing row is replaced, whatever it was |
| `JobSystem.Tables.BrPop` | worker/agent.py:183-196 | the oldest id leaves the list into the agent's hand, or nothing happens on an empty list |
| `JobSystem.Tables.LoadJob` | worker/agent.py:45-47 | an id whose row is missing or not QUEUED is dropped |
| `JobSystem.Tables.RejectInvalidSpec` | worker/agent.py:49-59 | the row becomes FAILED without a guard |
| `JobSystem.Tables.ApplyContainerResult` | worker/agent.py:93-119 | the branches over the result come to the final status the protocol writes |
| `JobSystem.Tables.Outside` | api/routers/jobs.py:106-108 | deaths, restarts, container ends and pushes from outside as the tables see them |
| `JobSystem.Tables.TablesFollowTheProtocol` | worker/agent.py:165-199 | whatever methods were called on the tables, in whatever order, what happened is a run of the protocol, so its theorems on single starts, list order, conservation and clean runs hold of the tables |
| `JobQuota.StepCountsActive` | api/quotas.py:104-110 | only a commit adds to a user's active jobs, and it adds one |
| `JobQuota.OvershootBound` | api/routers/jobs.py:92-103 | with limit L and at most k submits of a user between count and commit, the active jobs never exceed L + k - 1, whatever else runs |
| `JobQuota.OvershootIsAttained` | api/routers/jobs.py:92-103 | for every L and k there is a run that reaches L + k - 1 |
| `ContainerWait.WaitForContainer` | worker/container.py:226-255 | the loop ends at the first turn that decides, looking at cancel, deadline and container in that order; the status written is CANCELLED exactly when the event was set, SUCCEEDED exactly when the container had exited with zero before the deadline, and FAILED otherwise |
| `ContainerWait.DeadlineEndsTheLoop` | worker/container.py:231-255 | however long the container runs, a timeout of s seconds decides by turn s |
| `ContainerWait.WatchForCancel` | worker/cancel_listener.py:14-25 | the event is set exactly when a cancel command arrives before somebody else sets it |
| `RefreshFamilies.OneLiveTokenPerFamily` | api/routers/auth.py:104-119 | in every reachable state a family has at most one unrevoked token, and it is the last one issued |
| `RefreshFamilies.RotationsFormAChain` | api/routers/auth.py:213-216 | each successful refresh of a family presents the token the previous one issued |
| `RefreshFamilies.RotatesIff` | api/routers/auth.py:177-213 | a refresh rotates exactly when its token is known, unrevoked, not yet expired and its user exists; an unknown token changes nothing |
| `RefreshFamilies.IssuedTokens` | api/routers/auth.py:104-119 | login and rotation issue one unrevoked token for the right user and family with the expiry given; rotation revokes the one presented and touches no other |
| `RefreshFamilies.ExpiryNeverMoves` | api/routers/auth.py:110-116 | over any run a token keeps the expiry it was issued with |
| `RefreshFamilies.ExpiredTokensNeverRotate` | api/routers/auth.py:193-201 | over any run no token rotates at or after the expiry it was issued with |
| `RefreshFamilies.FamilyDiesIff` | api/routers/auth.py:184-211 | a live family loses its last live token exactly by a replay, an expired presentation, a vanished user, a logout with one of its tokens or a password change of its user |
| `RefreshFamilies.DeadForGood` | api/routers/auth.py:90-101 | a family without a live token never gets one again and never rotates |
| `RefreshFamilies.EndedFamilyNeverRotates` | api/routers/auth.py:184-211 | after any of those endings no later refresh in the family succeeds |
| `RefreshFamilies.SecondPresentationKillsLiveFamily` | api/routers/auth.py:184-186 | presenting a rotated token once more kills the family although it has a live token |
| `RefreshFamilies.AuthServer.HandleLogin` | api/routers/auth.py:139-157 | good credentials start a family with one live token, bad ones change nothing |
| `RefreshFamilies.AuthServer.RefreshSession` | api/routers/auth.py:170-216 | every branch of the handler, and a new token exactly when the presented one rotates |
| `RefreshFamilies.AuthServer.RevokeTokenFamily` | api/routers/auth.py:96-101 | exactly the tokens of the family become revoked |
| `RefreshFamilies.AuthServer.HandleLogout` | api/routers/auth.py:229-234 | the family of a known token is revoked |
| `RefreshFamilies.AuthServer.HandleChangePassword` | api/routers/auth.py:245-254 | all families of the user are revoked once the old password checks |
| `SessionClient.StaysCurrent` | api/routers/auth.py:213-216 | a server step leaves a token that is the newest of its family, or of a dead family, so, unless it rotates that live family |
| `SessionClient.StepKeepsInv` | web/lib/api.ts:99-119 | every step of client, network, server and other devices keeps the cookie, the refresh in flight and pending logins on newest or dead tokens |
| `SessionClient.RefreshNeverKillsALiveFamily` | web/lib/api.ts:99-119 | every refresh of this client that reaches the server presents the newest token of its family or one of a dead family, so reuse detection never ends a family that had a live token |
| `SessionClient.CookieIsCurrentAtRest` | web/lib/api.ts:115-117 | with no refresh in flight the cookie is the newest token of its family or its family is dead |
| `SessionClient.LiveSessionIsRefreshed` | web/lib/api.ts:103-118 | with a live token in the cookie a refresh carries it, rotates its family and leaves the client with the new live token of the same user |
| `SessionClient.RejectedRefreshBringsNothing` | api/routers/auth.py:171-211 | a rejected refresh leaves the cookie or clears it, and leaves it when the server did not know the token |
| `SessionClient.LoginStartsASession` | api/routers/auth.py:155-160 | a login puts a live token of a new family in the cookie |
| `SessionClient.LogoutEndsTheSession` | api/routers/auth.py:229-236 | a logout carries the cookie, ends its family and clears the cookie |
| `SessionClient.Client.RefreshAccessToken` | web/lib/api.ts:99-107 | a call while a refresh is in flight sends nothing and changes nothing; otherwise one request goes out carrying the present cookie |
| `SessionClient.Client.RefreshLanded` | web/lib/api.ts:108-117 | the response stores the new cookie and access token, or drops the access token and at most clears the cookie, and frees the slot |
| `SessionClient.Client.Request` | web/lib/api.ts:137-169 | at most two fetches and one refresh, the second fetch exactly after a 401 and a refresh that succeeded; signed out exactly when that refresh fails; and the last response decides the error, its status and the password prompt |
| `LogLines.PiecesAndRest` | worker/logs.py:62-68 | the lines and the rest spell the text |
| `LogLines.SplitIsUnique` | worker/logs.py:64-66 | there is no other way to write the text as lines and a rest without newline |
| `LogLines.SplitContinues` | worker/logs.py:63-65 | cutting the kept-back rest with new text continues the cut of the whole |
| `LogLines.CollectorKeepsEverything` | worker/logs.py:56-79 | after any calls of append, flush and tail, published pieces and rest spell the input, no piece holds more than a line, and the kept lines are the last ones published |
| `LogLines.FlushLeavesNothing` | worker/logs.py:70-79 | after a flush or a tail everything written so far is published |
| `LogLines.AppendsSplitTheWhole` | worker/logs.py:62-68 | after appends alone the published pieces are the newline split of everything appended |
| `LogLines.ChunkingDoesNotShow` | worker/logs.py:62-79 | with the flush at the end, pieces and tail depend only on the whole output, not on how it was chunked |
| `LogLines.LogCollector.PublishLine` | worker/logs.py:67-68 | one line goes to the channel, the replay list and the bounded tail |
| `LogLines.LogCollector.AppendChunk` | worker/logs.py:62-68 | the loop publishes exactly the complete lines and keeps the rest |
| `LogLines.LogCollector.FlushPartial` | worker/logs.py:70-75 | a nonempty rest is published and cleared |
| `LogLines.LogCollector.TailText` | worker/logs.py:77-79 | flush, then the join of the last lines |
| `LogStream.ListIsTheLastMessages` | worker/logs.py:24-31 | between groups the replay list is the last N messages published, and inside a group it lags by exactly the commands not yet sent |
| `LogStream.HistoryGrows` | worker/logs.py:29-29 | what was published stays a prefix of what is |
| `LogStream.ViewerGetsTwoBlocks` | api/services/job_log_stream.py:44-79 | under every interleaving a viewer gets two blocks of the history, [a, b) with the last N messages up to b, or all of them, and then from c on, with b <= c; there is no gap exactly when nothing was published between read and subscription and the read fell between two publish, push, trim groups, or after the push of one while the list had not outgrown N |
| `LogStream.DeliveryIsOrdered` | api/routers/job_logs.py:74-77 | with end markers: the lines delivered are at strictly increasing positions of the history, and the stream ends exactly when a marker is published after the subscription |
| `LogStream.Topic.Publish` | worker/logs.py:24-31 | the three commands together append to the history and keep the list at its last N |
| `ThinnedRelay.SendRecursesAtMostOnce` | api/services/job_log_stream.py:25-42 | for an interval of two or more a send calls itself at most once, whatever times out, and then drops the line |
| `ThinnedRelay.IntervalOneRecursesPerTimeout` | api/services/job_log_stream.py:25-42 | with an interval of one each timeout is one more call, without bound |
| `ThinnedRelay.AllDeliveredUntilTimeout` | api/services/job_log_stream.py:34-38 | until a send times out every line goes out and nothing else does |
| `ThinnedRelay.CounterIsHonest` | api/services/job_log_stream.py:26-29 | the counter modulo the interval never exceeds the lines dropped since the last delivery |
| `ThinnedRelay.DeliveriesAreSpaced` | api/services/job_log_stream.py:26-29 | after the first timeout each delivered line follows at least interval - 1 dropped ones |
| `ThinnedRelay.ThinningIsRegular` | api/services/job_log_stream.py:26-29 | while nothing more times out exactly every interval-th line is delivered, the dropped line counted |
| `ThinnedRelay.OneInEveryIntervalIsTried` | api/services/job_log_stream.py:26-29 | whatever else times out, among any interval lines in a row one is tried |
| `ThinnedRelay.OneMarkerBeforeThinnedLines` | api/services/job_log_stream.py:30-32 | the whole output is the lines before the timeout, at most one marker, and after it the lines that still get through |
| `ThinnedRelay.LogWebSocketRelay.SendLine` | api/services/job_log_stream.py:25-42 | fields and socket after a send, with its recursion |
| `ThinnedRelay.LogWebSocketRelay.SendUntilEof` | api/services/job_log_stream.py:47-52 | the loop sends the lines before the first end marker and says whether there was one |
| `ThinnedRelay.LogWebSocketRelay.StreamJobLogs` | api/routers/job_logs.py:74-77 | replay then live relay through one relay object, and an end for the viewer only from the channel |
| `QuotaCounters.Redis.Enforce` | api/quotas.py:142-171 | the verdict for each kind of resource, and a counter consumed exactly when it is granted |
| `QuotaCounters.Redis.Release` | api/quotas.py:174-189 | a release takes the amount off and stops at zero; amounts below one are refused |
| `QuotaCounters.VerdictIff` | api/quotas.py:150-165 | a request passes exactly when its amount is at least one and fits what is left; a refusal reports the limit and the usage |
| `QuotaCounters.CounterKeyIff` | api/quotas.py:64-72 | two requests count on one key exactly for the same user and resource and, for jobs and LLM tokens, the same day |
| `QuotaCounters.DayCovers` | api/quotas.py:59-61 | a day is its own 24 hours |
| `QuotaCounters.CountedInRedisIff` | api/quotas.py:36-48 | every resource but running jobs and live endpoints has a counter, and none is both daily and absolute |
| `QuotaCounters.ConsumeMovesExpiryIff` | api/quotas.py:167-171 | consuming adds the amount and sets the expiry exactly for daily counters and counters at zero |
| `QuotaCounters.GiveStopsAtZero` | api/quotas.py:186-189 | releasing stops at zero, and drops the expiry exactly when it had to be stopped |
| `QuotaCounters.DailyOvershootBound` | api/quotas.py:142-171 | with a time to live of at least a day and at most k submits between read and increment, no day admits more than L + k - 1 jobs, through midnight and key expiry |
| `ObjectStore.DecimalIsInjective` | api/storage.py:23-24 | different versions are written differently |
| `ObjectStore.DecimalReadsBack` | api/storage.py:23-24 | a version written in a prefix reads back as itself |
| `ObjectStore.ListedInFolders` | api/storage.py:95-98 | what is listed is decided by the last part of the name: files in folders are, folders are not |
| `ObjectStore.PrefixStartsIff` | api/storage.py:23-24 | for any names, one model prefix starts another exactly when they are the same model or the user is the same and the second name goes on from the first name, a slash and its version |
| `ObjectStore.SlashlessNamesDoNotNest` | api/storage.py:23-24 | no model nests in a name without a slash |
| `ObjectStore.SlashedNamesCollide` | api/storage.py:23-24 | every model has a name whose every version lies under its prefix |
| `ObjectStore.NamesAfterUpload` | worker/artifacts.py:76-79 | an upload adds exactly its file names under the prefix |
| `ObjectStore.RoundTripIff` | api/storage.py:126-138 | downloading what was uploaded gives the same files exactly when the upload covers every file that was already there |
| `ObjectStore.UploadStoresAllBytes` | worker/artifacts.py:76-79 | the objects under an unused prefix have as many bytes as the files uploaded there |
| `ObjectStore.ObjectStorage.DeletePrefix` | api/storage.py:108-120 | exactly the keys under the prefix go, in calls of at most a thousand, and the count is theirs |
| `ObjectStore.ObjectStorage.ListFiles` | api/storage.py:89-99 | each file under the prefix once, by relative name, with its size |
| `ObjectStore.ObjectStorage.DownloadPrefix` | api/storage.py:126-138 | it succeeds exactly when every file name stays inside the destination, and then returns the files under the prefix by relative name, and their number; otherwise what was written before is a part of them |
| `ModelRegistry.ChargeCoversSize` | api/storage.py:27-30 | the MB charged cover the bytes with less than one MB to spare |
| `ModelRegistry.TotalSizeAdds` | worker/artifacts.py:16-21 | the size of a directory is the sum over its parts |
| `ModelRegistry.AsMapHoldsTheFiles` | worker/artifacts.py:24-25 | files with distinct names are found by name, and their sizes sum to the size of the directory |
| `ModelRegistry.PromotionGoesThroughIff` | worker/artifacts.py:54-71 | a promotion is charged exactly when its user exists and its nonempty size fits the quota, and otherwise changes nothing |
| `ModelRegistry.RowSizeIsWhatIsStored` | worker/artifacts.py:61-92 | after a promotion into an unused prefix the lengths of the objects under it sum to the size its row records |
| `ModelRegistry.LiveModelsStoreTheirSize` | worker/artifacts.py:73-92 | and while the model is live and nothing clashing is touched, what downloading it returns has that many bytes |
| `ModelRegistry.FailedPromotionLeaves` | worker/artifacts.py:73-92 | a promotion that fails after the quota leaves its charge, exactly the files uploaded so far, and no row |
| `ModelRegistry.StorageIsAccounted` | api/quotas.py:153-189 | over any run of promotions that may fail after consuming and deletions by owners, the counter is exactly the MB of live models and failed promotions until its key expires and at most that later; until then the stored bytes fit the quota and no deletion is clamped |
| `ModelRegistry.DeletionIsExactIff` | api/routers/models.py:163-172 | a deletion keeps the owner's account exact exactly when the owner deletes or the model was empty; otherwise the owner stays charged by the model's MB |
| `ModelRegistry.ExpiryForgetsWhatIsStored` | api/quotas.py:170-171 | after the counter expires a promotion is charged whenever it fits the quota by itself |
| `ModelRegistry.VanishIsExactIff` | api/quotas.py:170-171 | when a counter expires the account stays exact exactly when the user had no charges and no failed promotions |
| `ModelRegistry.StorageBoundAcrossExpiries` | api/quotas.py:153-189 | over any such run, expiries included, the counter never exceeds the limit and the stored bytes never exceed the limit times one more than the number of expiries |
| `RegistryLimits.ExpiryDoublesWhatIsStored` | api/quotas.py:170-171 | for every limit a run with one expiry that stores twice the limit |
| `ModelRegistry.NewVersionIsFresh` | worker/artifacts.py:28-36 | the next version is one more than the highest live one of its user and name, or one, so it differs from every live row |
| `ModelRegistry.RowsStayDistinct` | worker/artifacts.py:73-92 | in every reachable state no two live rows are the same user, name and version |
| `ModelRegistry.ModelsShareAKeyIff` | api/storage.py:23-24 | two models can hold the same key exactly when they are the same or one name goes on from the other name and version |
| `ModelRegistry.SlashlessModelsNeverClash` | api/storage.py:23-24 | models whose names hold no slash never do |
| `ModelRegistry.StepKeepsOtherModels` | api/routers/models.py:163-172 | a promotion or deletion leaves the files of every other live model it does not clash with as they were |
| `ModelRegistry.LiveModelsKeepTheirFiles` | api/storage.py:108-138 | while a model is live and nothing that clashes with it is promoted or deleted, no step of anybody changes what downloading it returns |
| `ModelRegistry.DeletionSparesIff` | api/storage.py:108-120 | a deletion leaves a model's files as they were exactly when none of them lies under the deleted prefix |
| `ModelRegistry.EnclosedModelLosesItsFiles` | api/routers/models.py:163-165 | deleting a model leaves no file of a model nested in it |
| `RegistryLimits.DeletingOneModelEmptiesAnother` | api/routers/models.py:163-172 | for every name a run in which deleting its first version empties the live model whose name goes on with a slash and that version |
| `ModelRegistry.PromotedModelRoundTrips` | worker/artifacts.py:73-92 | downloading a freshly promoted model returns the uploaded files exactly when no other file was left under its prefix |
| `RegistryHandlers.Registry.DirSizeBytes` | worker/artifacts.py:16-21 | the loop sums the sizes |
| `RegistryHandlers.Registry.UploadFiles` | worker/artifacts.py:76-79 | the loop stores the files up to the one that raises and no other key |
| `RegistryHandlers.Registry.PromoteOutputs` | worker/artifacts.py:54-94 | every early return, the order of quota, number, upload and insert, and what is left behind when an upload or the insert raises |
| `RegistryHandlers.Registry.DeleteModel` | api/routers/models.py:163-172 | files, counter of the caller and row, in that order |
| `WorkerLease.TokenNeverReturns` | worker/lock.py:15-25 | once an agent's token has left the key it never owns it again, over every interleaving of single commands and key expiry |
| `WorkerLease.RefreshesBracketOwnership` | worker/lock.py:27-32 | between two successful refreshes of one agent nobody else owned the key, nor refreshed successfully |
| `WorkerLease.LoserStopsAtNextRefresh` | worker/agent.py:179-181 | an agent whose token has left the key stops at its next refresh |
| `WorkerLease.RefreshGoesOnIff` | worker/lock.py:27-32 | an agent goes on after a refresh exactly when it still owns the key, which the refresh leaves as it is |
| `WorkerLease.ReleaseDeletesIff` | worker/lock.py:34-37 | a release goes on to delete exactly when it read its own token |
| `WorkerLease.StepIsExclusiveIff` | worker/lock.py:17-25 | a step lets a second agent work exactly when it acquires a free key while another agent is at work |
| `WorkerLease.OneAgentWorksIff` | worker/agent.py:166-181 | at most one agent works throughout a run exactly when no acquisition finds the key free while another agent is still at work |
| `WorkerLease.TimelyLeaseIsExclusive` | worker/lock.py:17-37 | when the key never expires under an owner that works or is about to delete it, every agent at work owns the key, so there is at most one |
| `WorkerLease.KeyStaysUntilDropped` | worker/lock.py:17-37 | an owned key stays owned until it expires or somebody deletes it |
| `WorkerLease.ReleaseIsCleanIff` | worker/lock.py:34-37 | the delete of a release removes the agent's own lease exactly when the key neither expired nor was deleted since the read |
| `WorkerLease.TwoAgentsCanWork` | worker/agent.py:178-197 | a run with two agents at work at once |
| `WorkerLease.ReleaseCanRemoveAnothersLease` | worker/lock.py:34-37 | a run in which a release deletes the lease of another, working agent |
| `WorkerLease.WorkerLock.TryAcquire` | worker/lock.py:17-25 | the key is taken exactly when it was free |
| `WorkerLease.WorkerLock.RefreshRead` | worker/lock.py:27-30 | the read of a refresh decides whether the agent goes on |
| `WorkerLease.WorkerLock.ReleaseRead` | worker/lock.py:34-36 | the read of a release decides whether a delete follows |
| `WorkerLease.WorkerLock.ReleaseRemove` | worker/lock.py:37-37 | the delete empties the key whoever owns it then |

## Left out

- `TokenBucket.ExactAdmission`: token counts are exact reals; the rounding of Lua numbers and of the text Redis stores is not modelled, and the rate is taken to be positive.
- `TokenBucket.ExpiryIsInvisible`: the time to live is measured on the same clock as the calls; the callers' clocks and the one of Redis are not told apart.
- `BucketKeys.RateLimiter.ConsumeToken`: failing open when Redis is down is the middleware's and is not modelled.
- `JobProtocol.QueuedJobsAreConserved`: a push that raises is taken as not pushed, and a BRPOP reply lost to a socket timeout is not modelled. An id that is no UUID behaves like an id without a row.
- `JobSystem.Tables.BrPop`: a reply lost after the id has left the list is not modelled, as above.
- `JobSystem.Tables.ApplyContainerResult`: promotion is `RegistryHandlers`, the end marker `LogStream`; the MLflow lookup writes a run id that nothing here reads.
- `JobProtocol.TerminalStatusIsFinal`: one agent per host is a hypothesis here; `WorkerLease.OneAgentWorksIff` says exactly when the lease provides it, `WorkerLease.TimelyLeaseIsExclusive` that a key which outlives its owner's work does, and `JobLimits` what happens without it.
- `JobQuota.OvershootBound`: the limit is constant over the run; an administrator changing it is not modelled.
- `LogStream.ViewerGetsTwoBlocks`: one publisher per job and N of at least one; the log thread that may outlive its join timeout would be a second publisher. A container line that parses as an end marker counts as one.
- `LogStream.DeliveryIsOrdered`: that a viewer who subscribes after the marker waits for ever is stated as the code has it; the stored log of a finished job is sent by a separate loop that is not modelled.
- `ThinnedRelay.OneMarkerBeforeThinnedLines`: a send that blocks without a timeout (the marker, the end message) and a closed socket are not modelled.
- `SessionClient.RefreshNeverKillsALiveFamily`: one tab, no reload and no lost response; `RefreshFamilies.SecondPresentationKillsLiveFamily` is why these are needed. A rejected refresh may or may not clear the cookie, since the framework can drop that header with the exception; both are allowed.
- `SessionClient.Client.Request`: responses are inputs; the text of an error is not modelled beyond the password-change detail.
- `QuotaCounters.Redis.Enforce`: increment and expiry are one step, and creating a missing quota row is not modelled; the gap between check and increment is in `DailyOvershootBound` and `JobProtocol`.
- `ModelRegistry.StorageIsAccounted`: promotions and deletions run one after another; a crash of `delete_model` between its three effects is not modelled. Outputs that are all empty files ask for zero MB, which the quota refuses.
- `ModelRegistry.PromotedModelRoundTrips`: the leftover condition is there because a deleted newest version frees its number and a failed promotion leaves files.
- `ObjectStore.ObjectStorage.DownloadPrefix`: which names lead outside the destination is an input, not a resolution of paths.
- `WorkerLease.TokenNeverReturns`: time is not modelled; the key may expire at any moment.
- JWT, Argon2, token hashing, route tables, scope and ownership checks, pagination and response mapping: single branches or library behaviour.
- Docker, MLflow, the S3 client, tar extraction and endpoint serving: foreign calls, whose outcomes are inputs where a component needs them.
