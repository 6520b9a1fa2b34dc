# InstaMind backend: a verified model of its stateful cores

This Dafny project models four parts of the InstaMind backend
(`apps/backend/app`) and proves what they guarantee over whole runs:

* **Publishing** (`publishing_*.dfy`, `backoff.dfy`, `containers.dfy`): the job
  queue that workers claim from, run against Meta's Graph API, retry with
  backoff, and guard with a daily limit.
* **Identity** (`identity_*.dfy`): sign-in with lockout, sessions, and refresh
  tokens that rotate in families (section 5.2.2.3 of RFC 6819).
* **Rate limiting** (`rate_limit.dfy`): the fixed-window limiter with its memory
  and Redis backends.
* **Metering and credentials** (`metering.dfy`, `calendar.dfy`, `ai_*.dfy`,
  `instagram_*.dfy`): AI cost and monthly budget, and the freshness of
  Instagram tokens.

## How it is built

Each core exists twice. The *transition system* (`PublishingModel`,
`IdentityModel`, `InstagramTokens`, `AiBudget`) is a datatype of rows, a `Step`
per thing that can happen, `Apply` for its effect, and `ValidRun`/`After` for
runs of any length; clocks never go back and outside answers are arbitrary. The
theorems are about every run. The *service class* (`PublishingService`,
`IdentityService`, `InstagramConnectService`, `AIContentService`) assigns its
fields step by step as the Python does, and its `Valid()` says that the fields
are the state its recorded trace reaches in the transition system, so each
method is proved against the model and every theorem about runs holds of the
object (`PublishingGuarantees.ServiceStateIsSound`,
`IdentityService.ServiceStateIsSound`,
`InstagramService.ServiceKeepsOneCredential`,
`AiService.ServiceStaysWithinBudget`). The limiter and the container protocol
are classes and methods over the fields and calls of the original.

History that the database does not keep (executions with their reply times and
the Meta calls they made, checked passwords, the order in which a family's
tokens were minted, the progress of sweeps) is part of the model state and never
influences what a step does to the rows.

Instants are whole microseconds, except in the rate limiter: seconds as `real`
for the memory backend and whole milliseconds for Redis. Ids, token hashes,
family names and idempotency keys are opaque integers; fresh ones are parameters
that must not be in use.

## Where the code and its promises part

* **The daily guard is a 23-hour guard.** `docs/instagram-integration.md:124-129`
  and `docs/database-schema.md:92` speak of a rolling 24 h count. The check drops
  an hour's row once the hour's *start* is 24 hours old, so two posts can go out
  23 hours and two microseconds apart under a guard of one
  (`GuardCanBeExceededIn24Hours`). `CheckIsRollingIff` says exactly when the
  counter is the rolling count; `PublishesIn23Hours` is the bound that holds.
* **A claim can be early.** The claiming UPDATE re-checks the state and not
  `scheduled_for`. A job is leased before its time exactly when it was run into a
  retry between the SELECT and the UPDATE and the backoff of the last such retry
  is not over (`EarlyIffRetriedMeanwhile`); on the row this shows as a
  `next_retry_at` that is still ahead (`LeaseIsDueIff`).
  `InterleavedClaimCanBeEarly` is such a run, and an uninterrupted claim takes
  due jobs only (`AtomicClaimTakesDueJobs`). The job is still published at most
  once.
* **Strictly longer retries need headroom under the cap.** Two consecutive
  jittered delays are ordered for every draw exactly when the base delay grew by
  half or more (`LongerIffGrewByHalf`), which is the case until the cap is hit.
* **Reuse detection signs nobody out.** `docs/api-guide.md:33-35` and the error
  message say that the sessions are signed out. No session row changes, and the
  sessions that end afterwards are exactly those that are signed out by other
  steps (`ReuseSignsNobodyOut`). A token of the dead family that was rotated
  within the grace period is still answered with an access token
  (`ReplayIsReissuedOrKills`, with the run `DeadFamilyIsStillReissued`).
* **90 days are 30.** A chain may live 90 days, but a session's expiry is never
  moved. A login can be rotated at exactly the ages below both limits
  (`CanRotateIff`), so the chain's maximum age is reached if and only if it is no
  longer than the session lifetime (`MaxAgeIsReachedIff`); with the default
  settings it is not.
* **Five wrong passwords in a row do not always lock.** The counter restarts with
  each lock, so an account locks exactly when its streak of wrong passwords
  reaches a multiple of five (`AlwaysLockInv`), and the sixth of a streak leaves
  it open (`SixthFailureDoesNotLock`). While it is locked nothing is checked
  (`NothingIsCheckedWhileLocked`).
* **`Retry-After` can be too short.** The header rounds the reset delay down; a
  caller that obeys it is let in exactly when nothing was lost
  (`RetryAfterSuffices`; `RetryAfterCanBeTooShort` has the numbers). The
  unrounded delay is exact (`DeniedCallerWaits`).
* **The limiter's sliding bounds**: a half-open interval of window length holds
  at most 2·limit − 1 allowed hits, a closed one at most 2·limit, and both are
  reached (`LessThanTwiceTheLimit`, `TwiceTheLimit`, `BoundIsReached`). A window
  of zero seconds limits nothing (`EmptyWindowLimitsNothing`). The backends
  differ only in the reset delay for negative windows (`BackendsAgree`).
* **The seven-day refresh margin** rules out lapses exactly when sweeps are at
  most seven days apart and none begins while the account is in ERROR with a live
  token (`GapFreeIffWithinMargin`). The sweep passes such accounts by
  (`SweepTakesUnlessError`), so their token lapses however often sweeps run
  (`SkippedTokenLapses`). Only `mark_token_error` sets ERROR, and nothing in the
  application calls it at present.

## Model

| member | source | states |
|---|---|---|
| PublishingSafety.AtMostOncePublish | apps/backend/app/modules/publishing/service.py:160-283 | in every interleaving of any number of workers with enqueue and cancel, also between a claim's SELECT and UPDATE, no two successful publish replies belong to one job, nor to two jobs of a workspace with the same idempotency key |
| PublishingSafety.EndedJobsNeverChange | apps/backend/app/modules/publishing/service.py:142-158 | the whole row of a SUCCEEDED, FAILED, CANCELLED or DEAD job is the same in every continuation of every run |
| PublishingLifecycle.JobMovesIff | apps/backend/app/modules/publishing/service.py:142-283 | for every step, exactly when a QUEUED job becomes CANCELLED or RUNNING, and a RUNNING one QUEUED, DEAD, FAILED or SUCCEEDED; ended jobs stay |
| PublishingLifecycle.CancelIsFinal | apps/backend/app/modules/publishing/service.py:142-158 | a job that is QUEUED when it is cancelled is CANCELLED in every continuation, and no execution of it is added |
| PublishingLifecycle.EndedJobsAreNotExecuted | apps/backend/app/modules/publishing/service.py:160-267 | an ended job gets no further execution in any continuation |
| PublishingLifecycle.ExecutionOpensIff | apps/backend/app/modules/publishing/service.py:205-236 | an execution opens if and only if the rows are found, content that needs approval is approved, the account has published less than min(limit, 100) in the rows of the last 24 hours and the preflight passed; it is that of the next job, numbered attempts + 1 |
| PublishingLifecycle.JobsAreRequested | apps/backend/app/modules/publishing/service.py:87-131 | in every run a job comes from one enqueue of a usable account under a free key, starts QUEUED for the requested time or at once, and keeps content, account, key, approval flag and attempt limit |
| PublishingLifecycle.EnqueueMakesJobIff | apps/backend/app/modules/publishing/service.py:99-116 | an enqueue makes a job if and only if the account is usable and no job of the workspace has the key |
| PublishingLifecycle.RowsAgree | apps/backend/app/modules/publishing/service.py:142-283 | in every reachable state a job has an end exactly if it ended, a media id exactly if it SUCCEEDED, a lease if it is RUNNING, and is not retryable when DEAD or FAILED |
| PublishingLifecycle.RowAfterError | apps/backend/app/modules/publishing/service.py:237-263 | what an error leaves on the row: attempts, code, lease, schedule and end for a retried, a dead and a failed job |
| PublishingLifecycle.RowAfterBounce | apps/backend/app/modules/publishing/service.py:209-211 | a job that awaits approval is QUEUED again with that reason; attempts, schedule and lease stay, and the worker goes on |
| PublishingLifecycle.RowAfterSuccess | apps/backend/app/modules/publishing/service.py:265-270 | what a success leaves on the row: the media, the attempt number and no lease |
| PublishingLifecycle.LeaseRow | apps/backend/app/modules/publishing/service.py:185-190 | a lease names its worker and ends 300 seconds after the SELECT |
| PublishingLifecycle.LogGrowsByErrors | apps/backend/app/modules/publishing/service.py:594-625 | the log grows exactly by the Meta errors of executions, one row each with the execution's number; codes 4, 17, 32, 613 and 80004 are RATE_LIMITED, others by transience |
| PublishingWorker.ClaimTakesEarliestDue | apps/backend/app/modules/publishing/service.py:163-175 | in every run a claim takes min(limit, due) jobs of its workspace, each once and due, in schedule order, and leaves none that is due earlier |
| PublishingSafety.AlwaysSafe | apps/backend/app/modules/publishing/service.py:160-202 | a claimed job is held by one worker and is RUNNING; each open execution is in the hand of one worker; idempotency keys are unique per workspace; in every reachable state |
| PublishingSafety.AtomicClaimTakesDueJobs | apps/backend/app/modules/publishing/service.py:163-202 | a claim that nothing interrupts leases all it selected, and only jobs whose time has come |
| PublishingClaims.EarlyIffRetriedMeanwhile | apps/backend/app/modules/publishing/service.py:163-191 | in every run, the UPDATE leases a selected job before its time if and only if a retry since the SELECT, which no step of this worker made, put it off beyond now |
| PublishingClaims.LeaseIsDueIff | apps/backend/app/modules/publishing/service.py:179-191 | in every run, a leased job is due if and only if its row has no next_retry_at that is still ahead |
| PublishingClaims.ScheduleAfterStep | apps/backend/app/modules/publishing/service.py:526-539 | of all steps only the transient error of a job with attempts left moves its schedule, to now plus the drawn backoff |
| PublishingSafety.InterleavedClaimCanBeEarly | apps/backend/app/modules/publishing/service.py:179-184 | a run of two workers in which a job is leased before its scheduled time |
| PublishingAttempts.AttemptAccounting | apps/backend/app/modules/publishing/service.py:526-625 | the error log of a job is numbered 1..m without gaps, only its last row can be permanent and then the job is FAILED; log length and number of executions follow from state and `attempts`; QUEUED and RUNNING jobs have attempts left, DEAD ones none |
| PublishingAttempts.ExecutionsAreBounded | apps/backend/app/modules/publishing/service.py:235-267 | a job meets Meta at most max(max_attempts, 1) times in a run of any length |
| PublishingQuota.QuotaRowsAreExact | apps/backend/app/modules/publishing/service.py:467-508 | in every reachable state: one quota row per account and hour, each `used` is the number of publishes recorded in that hour, and for every account the sum the check reads is the number of recorded publishes whose hour lies in the window |
| PublishingQuota.PublishesIn23Hours | apps/backend/app/modules/publishing/service.py:467-483 | any 23 hours hold at most guard + k − 1 successful publishes of an account when at most k of its executions are between check and increment; at most guard when k = 1 |
| PublishingQuota.PublishesIn24Hours | apps/backend/app/modules/publishing/service.py:467-508 | any 24 hours hold at most twice that bound |
| PublishingQuota.CheckIsRollingIff | apps/backend/app/modules/publishing/service.py:468-477 | the counter is a rolling 24-hour count if and only if no publish lies in the part of the oldest hour that the window cuts off |
| PublishingWindow.GuardCanBeExceededIn24Hours | apps/backend/app/modules/publishing/service.py:468-486 | one worker, guard one, two publishes 23 hours and two microseconds apart |
| PublishingService.PublishingService.constructor | apps/backend/app/modules/publishing/service.py:68-84 | an empty service is in the initial state of the model |
| PublishingService.PublishingService.EnqueueJob | apps/backend/app/modules/publishing/service.py:87-140 | a new QUEUED job, or the job that already holds the key with nothing changed, or a refusal of an unusable account |
| PublishingService.PublishingService.CancelJob | apps/backend/app/modules/publishing/service.py:142-158 | a QUEUED job becomes CANCELLED now and no other job changes; for any other state nothing changes |
| PublishingService.PublishingService.SelectDue | apps/backend/app/modules/publishing/service.py:163-175 | at most `limit` due jobs of the workspace, earliest first, none left out that is earlier |
| PublishingService.PublishingService.ClaimNext | apps/backend/app/modules/publishing/service.py:160-202 | the jobs that the worker now holds were all due; the two steps of the model it made |
| PublishingService.PublishingService.StartJob | apps/backend/app/modules/publishing/service.py:205-236 | the approval, quota and preflight checks before `_publish`; a passed check opens execution number attempts + 1 and changes no job |
| PublishingService.PublishingService.CheckBeforePublish | apps/backend/app/modules/publishing/service.py:206-236 | which check fails first, and that only the approval bounce touches the job |
| PublishingGuarantees.CheckCountsPublishes | apps/backend/app/modules/publishing/service.py:467-483 | on a service object the check passes if and only if fewer than min(limit, 100) publishes of the account were recorded in the hours of its window |
| PublishingService.PublishingService.IncrementQuotaRow | apps/backend/app/modules/publishing/service.py:485-508 | the row of the account and the current hour counts one more, created when missing |
| PublishingService.PublishingService.RecordAttempt | apps/backend/app/modules/publishing/service.py:594-625 | one log row with the attempt number and the outcome class of the error |
| PublishingService.PublishingService.ScheduleRetry | apps/backend/app/modules/publishing/service.py:526-548 | counts the attempt and either requeues the job after the jittered delay or marks it DEAD |
| PublishingService.PublishingService.HandleAnswer | apps/backend/app/modules/publishing/service.py:237-263 | the state after a publish reply, a transient or permanent MetaAPIError, or a ValidationError, as the step of the model |
| PublishingService.PublishingService.RecordSuccess | apps/backend/app/modules/publishing/service.py:265-283 | the SUCCEEDED row and the quota increment, as the step of the model |
| PublishingService.PublishingService.CallMeta | apps/backend/app/modules/publishing/service.py:233-240 | with a client of its own, a success made exactly one successful publish call for the media it returns, and any other answer made none |
| PublishingService.PublishingService.ExecuteJob | apps/backend/app/modules/publishing/service.py:235-283 | Ok exactly when Meta got a publish call, for the media that is stored on the job; any error means that Meta got none |
| PublishingService.PublishingService.ProcessJob | apps/backend/app/modules/publishing/service.py:205-283 | Ok exactly when the job was executed and ended SUCCEEDED; the steps of the model it made |
| PublishingService.PublishingService.ProcessDueJobs | apps/backend/app/worker/tasks.py:57-102 | every workspace with a due job, up to 20, is claimed from exactly once with limit 5, whatever failed before; the jobs started are exactly those that the claims selected, in that order; processed is their number, succeeded the publishes recorded, failed the rest |
| PublishingService.PublishingService.SelectWorkspaces | apps/backend/app/worker/tasks.py:57-69 | distinct workspaces with a due job, at most 20, and all of them if fewer |
| PublishingService.PublishingService.ProcessWorkspace | apps/backend/app/worker/tasks.py:88-100 | one claim with limit 5, and every job it selected is started, in order |
| PublishingService.PublishingService.ProcessBatch | apps/backend/app/worker/tasks.py:89-100 | every claimed job is started exactly once, in order, and counted as succeeded or failed |
| PublishingGuarantees.ServiceStateIsSound | apps/backend/app/modules/publishing/service.py:67-283 | a service object, whatever was called on it, has the at-most-once, accounting and histogram invariants |
| PublishingGuarantees.OnePublishCallPerJob | apps/backend/app/modules/publishing/service.py:235-283 | counted over the calls that reached Meta: two successful publish_container calls for one job, or for one idempotency key of a workspace, are the same call |
| Backoff.DelayMonotone | apps/backend/app/modules/publishing/service.py:658-662 | the base delay is monotone in the attempt and never exceeds the cap |
| Backoff.DelayDoubles | apps/backend/app/modules/publishing/service.py:658-662 | each delay is twice the previous one, or the cap |
| Backoff.FirstDelay | apps/backend/app/modules/publishing/service.py:519-522 | the first delay is the base |
| Backoff.JitterBand | apps/backend/app/modules/publishing/service.py:523-524 | every draw keeps the delay within 20 % of the base delay, below the upper end |
| Backoff.LongerIffGrewByHalf | apps/backend/app/modules/publishing/service.py:519-524 | consecutive delays increase for all draws if and only if the base delay grew by half; so they do while uncapped |
| Backoff.TotalBackoffBounded | apps/backend/app/modules/publishing/service.py:519-524 | n drawn delays add up to less than 1.2·base·(2ⁿ − 1) and less than 1.2·cap·n |
| PublishingBackoff.BackoffOfRunIsBounded | apps/backend/app/modules/publishing/service.py:526-539 | in every run a job is retried at most max_attempts − 1 times, and n retries put it off by less than 1.2·base·(2ⁿ − 1) and 1.2·cap·n seconds in all, up to half a microsecond each |
| PublishingBackoff.DrawsAreRetries | apps/backend/app/modules/publishing/service.py:526-531 | the retries that a run scheduled for a job are its attempts, without the one that ended it SUCCEEDED or DEAD |
| Containers.AssetPayloads | apps/backend/app/modules/publishing/service.py:418-446 | payloads follow the media order element for element; each error exactly under its condition, the first that applies |
| Containers.PollContainer | apps/backend/app/modules/publishing/service.py:392-415 | at most ceil(timeout/interval) + 1 status calls; all but the last pending; the result is what the last one says, and a timeout only at the deadline or later |
| Containers.Finalize | apps/backend/app/modules/publishing/service.py:379-390 | exactly one publish call for the container; the media is the answered id or else the container's; one lookup exactly if the permalink is missing, and a failing one loses nothing |
| Containers.PublishSingle | apps/backend/app/modules/publishing/service.py:311-352 | the published container was created from the asset, and a reel reported FINISHED between creation and publish |
| Containers.CreateChild | apps/backend/app/modules/publishing/service.py:356-367 | a child of the asset; a video child reported FINISHED after its creation |
| Containers.PublishCarousel | apps/backend/app/modules/publishing/service.py:354-377 | the parent lists one child per asset in order, every video child FINISHED before the parent is created |
| Containers.Publish | apps/backend/app/modules/publishing/service.py:286-309 | success means exactly one container published, prepared from the content's media in order; failure means none published and carries the last call's error; a ValidationError exactly for unusable media and before any call |
| IdentityTheorems.FamiliesAreChains | apps/backend/app/modules/identity/service.py:285-364 | in every reachable state a family is one acyclic chain under replaced_by through exactly its tokens, of one user and session, and an unrevoked token can only be the tail |
| IdentityFamilies.AlwaysInv | apps/backend/app/modules/identity/service.py:285-436 | chains, token-session-user agreement, no live token of an ended session, a token was used exactly when it was replaced, at most four counted failures: kept by every run |
| IdentityFamilies.RotationExtendsChain | apps/backend/app/modules/identity/service.py:338-360 | a rotation appends the new token at the tail of its family's chain |
| IdentityTheorems.ReuseKillsFamily | apps/backend/app/modules/identity/service.py:310-332 | a rotated token of an active user and live session that returns after the grace period leaves its family without a live token, and no later run mints another |
| IdentityTheorems.DeadStaysDead | apps/backend/app/modules/identity/service.py:388-396 | a family without a live token keeps its tokens and never gets a live one, in any run |
| IdentityTheorems.ReplayIsReissuedOrKills | apps/backend/app/modules/identity/service.py:310-332 | a rotated token is answered without any change exactly when its rotation is at most the grace period old and its replacement has not expired; otherwise the family dies and nothing but token rows changes |
| IdentityTheorems.RetriesChangeNothing | apps/backend/app/modules/identity/service.py:310-325 | a client that presents rotated tokens of live sessions, as often as it likes, until the grace period, a replacement or a session runs out, gets a reissue every time, and no row changes |
| IdentityAnswers.AnswersNeedLiveSession | apps/backend/app/modules/identity/service.py:300-339 | in every state an answer with a token needs an active user and an active, unrevoked, unexpired session, and a rotation happens if and only if moreover the token is live and neither it nor its chain has expired |
| IdentityAnswers.EndedSessionGetsNoAnswer | apps/backend/app/modules/identity/service.py:300-308 | after a step that signs a session out, in every continuation, presenting any of its tokens changes nothing and is answered that the session is revoked, or that the account is inactive |
| IdentityAnswers.RefusalsSayWhy | apps/backend/app/modules/identity/service.py:291-336 | each refusal if and only if its condition holds and no more general one does |
| IdentityAnswers.IdleTokenExpires | apps/backend/app/modules/identity/service.py:179-198 | whichever step minted it, a token is not rotated once the refresh lifetime since then is over, in any run |
| IdentityAnswers.MintedTokens | apps/backend/app/modules/identity/service.py:179-198 | expiries, owner and links of the rows that a login and a rotation write |
| IdentityAnswers.TokenDiesIff | apps/backend/app/modules/identity/service.py:338-436 | a live token is revoked by a step if and only if it is rotated, its family is killed, or its session is signed out; the row then says when and why |
| IdentityAnswers.LiveTokenIsKilled | apps/backend/app/modules/identity/service.py:388-436 | after any run a token that was live is revoked if and only if some step of the run killed it |
| IdentityAnswers.RevokedRowsStay | apps/backend/app/modules/identity/service.py:388-396 | a revoked row is not written again by any step |
| IdentityAnswers.DisabledGetsNothing | apps/backend/app/modules/identity/service.py:239-240 | a disabled account gets no login, whatever the password, and no answer to its tokens |
| IdentityTheorems.DeadFamilyIsStillReissued | apps/backend/app/modules/identity/service.py:316-332 | for all settings under which tokens outlive the grace period, a run in which a family dies, the session stays active and another rotated token of the family is still answered |
| IdentityTheorems.RotationCannotExtendLife | apps/backend/app/modules/identity/service.py:334-359 | after any run all tokens of a family carry the first one's chain expiry, none expires later, and none rotates at or after it or the session's creation-time expiry |
| IdentityTheorems.RotationsEndAfterLogin | apps/backend/app/modules/identity/service.py:142-198 | no rotation min(chain age, session lifetime) or later after the login |
| IdentityLifetime.CanRotateIff | apps/backend/app/modules/identity/service.py:142-198 | some login can be rotated at an age if and only if the age is below both the chain age and the session lifetime, however short a token lives |
| IdentityLifetime.MaxAgeIsReachedIff | apps/backend/app/modules/identity/service.py:304-308 | every age below the maximum age of a chain is reached if and only if that is no longer than the session lifetime |
| IdentityTheorems.RunKeepsRows | apps/backend/app/modules/identity/service.py:338-364 | runs never delete a token or session row, move an expiry, change an owner, or undo a revocation |
| IdentitySessions.SignOutIsComplete | apps/backend/app/modules/identity/service.py:416-511 | after revoke-all, a password change or a used reset link the user has no active session and no live token |
| IdentitySessions.SignedOutUntilNextLogin | apps/backend/app/modules/identity/service.py:416-436 | that lasts in every run without a successful login of the user, whatever passwords are tried meanwhile |
| IdentitySessions.EndedSessionsStayEnded | apps/backend/app/modules/identity/service.py:398-414 | an ended session stays ended and has no live token, in every continuation |
| IdentitySessions.ActiveUntilSignedOut | apps/backend/app/modules/identity/service.py:398-436 | after any run a session is active if and only if no step revoked it, signed its user out everywhere, changed the password or used a reset link of the user |
| IdentitySessions.ReuseSignsNobodyOut | apps/backend/app/modules/identity/service.py:323-332 | detected reuse changes no session row, and afterwards a session is active if and only if no later step signs it out |
| IdentitySessions.ResetLinkWorksOnce | apps/backend/app/modules/identity/service.py:488-505 | a reset link that changed a password is refused in every later state of every run |
| IdentitySessions.ResetLinkExpires | apps/backend/app/modules/identity/service.py:474-495 | a reset link works only within its lifetime, counted from the request, and for the user it was requested for |
| IdentityAnswers.ResetLinkWorksIff | apps/backend/app/modules/identity/service.py:488-511 | in every run a reset link changes the password if and only if the new one is strong, the link's lifetime since the request is not over and no step used it before; otherwise nothing changes |
| IdentityAnswers.PasswordChangesIff | apps/backend/app/modules/identity/service.py:448-457 | a password changes if and only if the current one is right and the new one strong; otherwise nothing changes |
| IdentityLockout.WrongPasswordsAreBounded | apps/backend/app/modules/identity/service.py:241-282 | n lockout periods without a successful login check at most 5n wrong passwords of an account, wherever the half-open interval starts |
| IdentityLockout.BoundIsReached | apps/backend/app/modules/identity/service.py:272-279 | for every n a run that checks exactly 5n |
| IdentityLockout.CounterStaysBelowFive | apps/backend/app/modules/identity/service.py:272-277 | failed_login_count is 0..4 in every reachable state |
| IdentityLockout.NothingIsCheckedWhileLocked | apps/backend/app/modules/identity/service.py:241-282 | in every run, after a wrong password that brings the streak since the last login to a multiple of five, no password of the account, right or wrong, is checked for 15 minutes |
| IdentityLockout.LoginSucceedsIff | apps/backend/app/modules/identity/service.py:230-253 | in every run a login succeeds if and only if the account is known and active, the lock that the check log implies is over and the password is right; a locked account refuses the right password, and a refusal without a check changes nothing |
| IdentityLockout.AlwaysLockInv | apps/backend/app/modules/identity/service.py:272-277 | in every reachable state the counter is the streak of wrong passwords modulo five and the lock is 15 minutes after the last multiple of five |
| IdentityLockout.SixthFailureDoesNotLock | apps/backend/app/modules/identity/service.py:272-277 | a run whose last five checks were wrong and which accepts the right password at once |
| IdentityService.IdentityService.Authenticate | apps/backend/app/modules/identity/service.py:216-270 | the answer and the new state are those of the model, for unknown, disabled and locked accounts, wrong and right passwords |
| IdentityService.IdentityService.RegisterFailedLogin | apps/backend/app/modules/identity/service.py:272-282 | the fifth failure locks the account for 15 minutes and restarts the count |
| IdentityService.IdentityService.StartSession | apps/backend/app/modules/identity/service.py:253-259 | counter and lock cleared, one session and the first token of a new family |
| IdentityService.IdentityService.RotateRefreshToken | apps/backend/app/modules/identity/service.py:285-364 | every answer and state change of a presented token is that of the model |
| IdentityService.IdentityService.Replace | apps/backend/app/modules/identity/service.py:338-363 | used row, new row and session row after a rotation, written in the order of the source |
| IdentityService.IdentityService.AnswerRevoked | apps/backend/app/modules/identity/service.py:310-332 | a revoked token is reissued with no change inside the grace window, or its family is revoked |
| IdentityService.IdentityService.RevokeTokenFamily | apps/backend/app/modules/identity/service.py:388-396 | no live token of the family is left; the answer is how many there were |
| IdentityService.IdentityService.RevokeSession | apps/backend/app/modules/identity/service.py:398-414 | the session ended and its tokens revoked, or nothing changed when it does not exist |
| IdentityService.IdentityService.EndSessions | apps/backend/app/modules/identity/service.py:416-436 | the loop ends every active session of the user and no other; the answer is how many |
| IdentityService.IdentityService.RevokeAllSessions | apps/backend/app/modules/identity/service.py:416-436 | the user is signed out everywhere |
| IdentityService.IdentityService.ChangePassword | apps/backend/app/modules/identity/service.py:448-462 | a wrong current or a weak new password changes nothing; success signs the user out everywhere |
| IdentityService.IdentityService.ConsumePasswordResetToken | apps/backend/app/modules/identity/service.py:488-511 | an unknown, used or expired link, or a weak password, changes nothing; success consumes the link and signs its user out everywhere |
| IdentityService.ServiceStateIsSound | apps/backend/app/modules/identity/service.py:71-436 | a service object, whatever was called on it, has single-chain families, no live token of an ended session, a counter of at most 4 and the lockout bound |
| RateLimit.MemoryLimiter.Hit | apps/backend/app/core/rate_limit.py:60-74 | the bucket and the answer of one hit |
| RateLimit.HitAfterReset | apps/backend/app/core/rate_limit.py:76-77 | the next hit of a key after its reset opens a new window, whatever happened before and to other keys meanwhile |
| RateLimit.KeysAreIndependent | apps/backend/app/core/rate_limit.py:9-10 | what the limiter holds for a key depends on that key's hits since its last reset alone |
| RateLimit.CounterIsRank | apps/backend/app/core/rate_limit.py:61-66 | the counter is the rank of the latest hit within its window, windows being defined without a counter |
| RateLimit.AllowedIffAmongFirst | apps/backend/app/core/rate_limit.py:60-74 | a hit is allowed if and only if it is among the first `limit` of its window, in every trace with any other keys and resets; remaining and reset delay count down what is left of the window |
| RateLimit.LessThanTwiceTheLimit | apps/backend/app/core/rate_limit.py:60-74 | any half-open interval of window length holds at most 2·limit − 1 allowed hits of a key since its reset |
| RateLimit.TwiceTheLimit | apps/backend/app/core/rate_limit.py:60-74 | any closed interval of window length holds at most 2·limit, for every window but zero |
| RateLimit.EmptyWindowLimitsNothing | apps/backend/app/core/rate_limit.py:63-64 | with a window of zero seconds any number of hits at one instant is allowed |
| RateLimit.BoundIsReached | apps/backend/app/core/rate_limit.py:60-74 | for every limit and window a trace with exactly 2·limit − 1 allowed hits in a half-open interval, and one with 2·limit in a closed one |
| RateLimit.DeniedCallerWaits | apps/backend/app/core/rate_limit.py:67-74 | a denied caller that is next on its key is allowed after d seconds if and only if d is at least the advertised delay |
| RateLimit.RetryAfterSuffices | apps/backend/app/core/rate_limit.py:38-45 | a caller that obeys the header is let in if and only if the delay is at most a second or a whole number of seconds |
| RateLimit.RetryAfterCanBeTooShort | apps/backend/app/core/rate_limit.py:38-45 | a hit that is told to wait 59 seconds when 59.5 are needed, and is denied again |
| RateLimit.RedisServer.Incr | apps/backend/app/core/rate_limit.py:22 | counts on, or starts at 1 without a deadline when the key is gone |
| RateLimit.RedisServer.PExpire | apps/backend/app/core/rate_limit.py:23-25 | sets the deadline; a timeout that is not positive deletes the key |
| RateLimit.RedisLimiter.Hit | apps/backend/app/core/rate_limit.py:85-103 | the three calls of the script and the answer, as one function of the counter found |
| RateLimit.StoresAgree | apps/backend/app/core/rate_limit.py:56-106 | after any trace of hits and resets both stores hold the same count and window start for a key with a positive window, and Redis holds nothing for one without |
| RateLimit.BackendsAgree | apps/backend/app/core/rate_limit.py:3-10 | both backends give the same `allowed` and `remaining` at every hit of every trace of hits and resets; the same reset delay if and only if the window is not negative |
| InstagramTokens.AlwaysOneCredential | apps/backend/app/modules/instagram/service.py:367-406 | whatever Meta answers, an account has at most one unrevoked token, and none while DISCONNECTED |
| InstagramCredentials.TokenIsHandedOutIff | apps/backend/app/modules/instagram/service.py:409-428 | in every reachable state the credential is handed out if and only if its expiry is ahead, and not found if and only if there is no live token |
| InstagramCredentials.ExpiryAfterStep | apps/backend/app/modules/instagram/service.py:430-538 | the expiry of an account's credential after any step: a connect and a refresh that is due, within seven days of expiry, and granted set it to the granted time or 60 days; a disconnect removes it; nothing else touches it |
| InstagramCredentials.StatusAfterStep | apps/backend/app/modules/instagram/service.py:350-538 | the status of an account after any step: which connect, refresh, error mark or disconnect sets it, and that nothing else does |
| InstagramCredentials.SweepCountsVisits | apps/backend/app/worker/tasks.py:160-180 | the counters of a sweep are the visits at which a refresh was due and granted, or due and raised |
| InstagramTokens.NoCredentialGap | apps/backend/app/modules/instagram/service.py:430-514 | with sweeps at most seven days apart that do not pass the account by in ERROR, lifetimes longer than the gap and successful refreshes, the active token is never past expiry at any moment of any run, however late the account is connected or reconnected |
| InstagramTokens.GapFreeIffWithinMargin | apps/backend/app/modules/instagram/service.py:449-453 | a sweep gap rules out every lapse if and only if it is at most the margin and no sweep passes the account by; if that may happen, only a gap of zero does |
| InstagramTokens.SweepTakesUnlessError | apps/backend/app/worker/tasks.py:151-158 | in every reachable state a sweep takes an account with a live token if and only if its status is not ERROR |
| InstagramTokens.SkippedTokenLapses | apps/backend/app/modules/instagram/service.py:516-520 | for every positive gap a run in which an account was marked ERROR and its token lapses between punctual sweeps |
| InstagramTokens.TokenLapses | apps/backend/app/modules/instagram/service.py:449-453 | for every longer gap a run in which the token lapses |
| InstagramService.InstagramConnectService.UpsertAccount | apps/backend/app/modules/instagram/service.py:211-365 | the account is CONNECTED with one new token, or refused unchanged when another workspace holds it |
| InstagramService.InstagramConnectService.StoreToken | apps/backend/app/modules/instagram/service.py:367-406 | all older tokens of the account revoked, one new row |
| InstagramService.InstagramConnectService.GetActiveToken | apps/backend/app/modules/instagram/service.py:409-428 | the newest unrevoked row, not found, or expired |
| InstagramService.InstagramConnectService.RefreshIfNeeded | apps/backend/app/modules/instagram/service.py:430-514 | the new state and result for every answer of Meta; raises exactly when a needed call does |
| InstagramService.InstagramConnectService.Disconnect | apps/backend/app/modules/instagram/service.py:523-538 | DISCONNECTED and without any live token |
| InstagramService.InstagramConnectService.SelectAccounts | apps/backend/app/worker/tasks.py:151-158 | every CONNECTED or TOKEN_EXPIRED account exactly once |
| InstagramService.InstagramConnectService.RefreshMetaTokens | apps/backend/app/worker/tasks.py:160-180 | a complete sweep: each selected account is visited once whatever the others do, and the counters are those of that sweep |
| InstagramService.ServiceKeepsOneCredential | apps/backend/app/modules/instagram/service.py:376-384 | a service object, whatever was called on it, keeps one credential per account |
| InstagramService.ServiceHasNoGap | apps/backend/app/worker/tasks.py:142-180 | a service object whose sweeps are at most seven days apart and skip no token of the account never finds it expired |
| Metering.CostIsExactCeiling | apps/backend/app/providers/ai/openai_provider.py:31-41 | the bill is the least whole number of cents that covers the exact price |
| Metering.BillCoversPriceList | apps/backend/app/providers/ai/openai_provider.py:20-41 | for every listed model and the default, the bill is the least whole number of cents that covers prompt tokens at the prompt price and completion tokens at the completion price |
| Metering.MillionsAtListPrice | apps/backend/app/providers/ai/openai_provider.py:20-41 | whole millions of prompt tokens alone cost that many times the prompt price, and of completion tokens alone that many times the completion price |
| Metering.FreeIffNoTokens | apps/backend/app/providers/ai/openai_provider.py:32-34 | a call costs nothing if and only if it used no tokens |
| Metering.BilledWithinOneCentPerCall | apps/backend/app/providers/ai/openai_provider.py:31-41 | n calls are never under-billed and over-billed by less than n cents |
| Calendar.MonthsTile | apps/backend/app/modules/ai/service.py:118-122 | an instant lies in a month's interval if and only if it is metered in that month, and the next interval starts where it ends |
| Calendar.BoundsOfMonth | apps/backend/app/modules/ai/service.py:118-122 | start plus 32 days, set back to day 1, is the first of the next month, for every month |
| Calendar.YearsFollowGregorianRule | apps/backend/app/modules/ai/service.py:118-122 | the months add up to the closed formula of the Gregorian 400-year cycle |
| AiBudget.RowsMeterTheLog | apps/backend/app/modules/ai/service.py:155-182 | over any span of months the cost rows add up to the cost of the recorded generations, parsed or not |
| AiBudget.RowsCountTheLog | apps/backend/app/modules/ai/service.py:155-182 | over any span of months the generation rows count the recorded generations |
| AiBudget.UsageRowsAreMonths | apps/backend/app/modules/ai/service.py:155-182 | one usage row per metric and month, spanning exactly that month, in every reachable state |
| AiBudget.CallIsAllowedIff | apps/backend/app/modules/ai/service.py:140-153 | in every run a call is let through if and only if there is no budget or the generations recorded this month cost less than it |
| AiBudget.SpentIsCostOfMonth | apps/backend/app/modules/ai/service.py:124-138 | for every month, what the check reads is what was spent in that month |
| AiBudget.OvershootBound | apps/backend/app/modules/ai/service.py:140-153 | with a positive budget, calls of at most c cents and at most k open at once, no month exceeds budget − 1 + c·k; budget − 1 + c serially |
| AiService.AIContentService.EnforceBudget | apps/backend/app/modules/ai/service.py:140-153 | refuses if and only if the budget is positive and spent |
| AiService.AIContentService.RecordUsage | apps/backend/app/modules/ai/service.py:155-182 | the loop adds the cost and one generation to the rows of the month |
| AiService.AIContentService.Generate | apps/backend/app/modules/ai/service.py:239-308 | check, provider call, stored generation, metered cost, in that order; a refused or failing call records nothing |
| AiService.ServiceStaysWithinBudget | apps/backend/app/modules/ai/service.py:140-182 | a service object, whatever was called on it, never spends more than budget − 1 + c in a month |
| AiService.ServiceRefusesIff | apps/backend/app/modules/ai/service.py:140-153 | a service object refuses a call if and only if it has a budget and this month's recorded generations have used it up |

## Left out

- The Celery task that processes a single job: it claims any due job but runs the named one, so a claim does not belong to the execution. Workers follow `process_due_jobs` only.
- The request transaction: service methods are modelled at object level, and what a method wrote before it raises stays written.
- Crashes, lost updates, and exceptions other than Meta and validation errors inside `_publish`. Steps of the transition systems are atomic; `lease_expires_at` is stored and, as in the code, never read back.
- PublishingWindow.PublishDueJob: covers workspace 0 and a single due job without approval, because it only builds the run of GuardCanBeExceededIn24Hours.
- PublishingModel merges the reads and checks of `process_job` before `_publish` (approval, quota, preflight, token) into one step, and the Meta calls of an execution into one answer; time may pass and other workers may step between steps. What happens inside an execution is in Containers, whose `Publish` a service object calls for that answer.
- PublishingService.PublishingService.ProcessDueJobs: the object runs one worker; interleavings of many workers are covered by the transition system.
- PublishingService.PublishingService.StartJob: media rules, the token refresh inside it and row lookups that fail are an arbitrary boolean each.
- Publishing order among equally early jobs, content status rows, audit rows and job results other than the media id.
- Containers.Publish: captions, tags, locations and covers of a container are not modelled, and the deadline of a poll is the only clock it reads.
- An account belongs to one workspace in the quota rows; tenancy beyond a workspace id, roles and memberships are not modelled.
- Backoff, jitter and limiter times use exact reals where the code uses floats; AI prices are exact rationals.
- Redis is modelled by the three commands that the script uses, executed atomically, with a key gone at its deadline.
- Two token sweeps at the same time: a sweep begins when the one before is complete, and any other step may come between its visits.
- IdentityService.IdentityService.Authenticate: e-mail lookup, password hashes, JWTs, token hashing, MFA and security events; a password check is a boolean, and the JWT's own expiry is not modelled (row expiry is).
- IdentityService.IdentityService.ChangePassword: password hashes and the strength rules; whether a password is right or strong enough is a parameter.
- Access tokens and what they open until they expire; the theorems are about refresh tokens and sessions.
- InstagramService.InstagramConnectService.UpsertAccount: the OAuth exchange, profile lookup, capabilities and encryption; its inputs are the workspace, the account and the lifetime Meta granted.
- InstagramService.InstagramConnectService.Disconnect: the purge of cached platform data.
- AiService.AIContentService.Generate: prompts, parsing and output guards; whether the text parses is a parameter. One object serves one workspace.
- Webhook ingestion, content and approval routes, storage, billing, inbox and schemas: they would only add easy members.
