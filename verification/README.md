# Verified models of the research server

A Dafny 4.11 model of the parts of the multi-agent research server whose correctness depends on
interleavings, time, real arithmetic, mutation under an uncooperative language model, or substring
arithmetic. Check everything with `dafny verify dfyconfig.toml`.

| file | what it models |
|---|---|
| `RateLimit`, `RateLimitBounds` | the token-bucket limiter with its sweep, and what a key can get out of it |
| `EventBus`, `TraceRows` | bounded subscriber queues and the fan-out bus; rows of a persisted trace |
| `LiveTrace`, `LiveTraceSafety`, `LiveTraceEmit` | one run's writer and any number of streams as interleaved atomic steps; what every stream has delivered; the writer's and the reader's code |
| `RunStatus`, `RunLifecycle`, `RunLifecycleSafety` | permits, tasks, cancel flags, status rows, deletion, process death and recovery |
| `RefreshTokens`, `Lockout` | refresh-token families (section 4.14.2 of RFC 9700) and the login lockout |
| `Budget` | check-then-charge with several calls in flight |
| `Claims`, `Debate`, `Pipeline` | extraction, de-duplication, verification and debate over shared claim objects, for every reply of the model |
| `Searcher`, `Citations`, `Sanitize`, `Markdown` | source selection, citation markers, the fence around untrusted text, report rendering |
| `Options`, `Numerals`, `Sources` | an option type; decimal numerals; sources and their lookup by reference |

Code that updates objects in place is a class or a method with loops, proved equal to a function of
the old state; the theorems are lemmas about those functions and about runs of step systems. Every
`session_scope` and every stretch of a coroutine without an `await` is one atomic step. Replies of
the model, clocks, search results, what the injection patterns find and replace, markup stripping
and inline Markdown are arbitrary parameters, so what is proved holds whatever they do.

The digits of citation markers are those of Unicode 15.0. The run of a stream is cut into finer
steps than the event loop really takes (each subscriber of a publication is a step of its own). The
step systems use the same functions as the classes: a step of `LiveTrace` offers with
`EventBus.Offered`, an uninterrupted emit or close is proved to be a run of the step system with the
effect that `Emitter.Emit` or `Emitter.Finish` has, and the steps of `RunLifecycle` are
proved to have the effect of the methods of `RunManager`.

## Where the code does less than its documentation says

Each of these is a proved statement, with the exact condition where there is one.

- **Interrupted emits leave gaps.** ARCHITECTURE.md (line 41) lets a stream expect the history and then
  every live event. A run timeout that hits between the commit and the publication of an event leaves
  a row that streams already open never show. What a stream shows is the trace without such rows
  (`DeliveredIsVisiblePrefix`), it is all of it exactly when there are none and all but its last two
  rows in any case (`EndByClose`, `DeliveredIsTraceButForTwo`), and there is a run that shows one missing
  (`InterruptedEmitLeavesGap`).
- **The sweep uses the caller's window.** It is unobservable exactly when no window in use exceeds
  four times another one (`SweepUnobservableIff`). The windows of the default configuration, 60 s and
  3600 s, do not meet this.
- **An early sweep refills.** Every run keeps every key within its limit and what accrues exactly when no
  window in use exceeds four times another one (`EnvelopeIff`). Otherwise a key can draw more
  (`EarlySweepBreaksEnvelope`), at most the limit once more for every sweep by a caller with less than a
  quarter of its window, of which an interval holds no more than one per 300 seconds and one more
  (`UnshelteredEnvelope`).
- **The retry hint is rounded down.** Waiting exactly that long suffices exactly when the deficit takes
  at most a second or a whole number of seconds (`RetryHintSufficesIff`); one second more always does.
  `RetryHintFallsShort` shows one check a minute denied, told to wait 59 seconds, and denied again.
- **A failed final write strands a run.** If the write of `failed` or `cancelled` fails, the row stays
  `running` in a live process without a permit. A running row is without a holder exactly when that has
  happened and its task is through (`StrandedIff`), it happens (`StrandingHappens`), and it stays so
  until the run is deleted or the process ends (`StrandedUntilFreed`, `RestartFreesStranded`), while the
  runbook (docs/RUNBOOK.md, line 27) speaks only of crashes.
- **Cancelling after the last checkpoint is in vain.** The handler still answers "cancelling", but the
  run can complete exactly when its last checkpoint was passed and its outcome is not yet lost
  (`CancelTooLateIff`).
- **Debate penalties do not last.** ARCHITECTURE.md (line 21) lists score penalties. The final rescoring
  overwrites status and support, except for a claim whose rescoring raises
  (`RescoringForgetsDebateIff`). Such a claim is lost exactly when the reply is of the wrong shape, or its
  score does not convert and its verdict is not a refutation (`MissingIff`, `LostClaim`).
- **Refuted by the rescoring, listed twice.** A contested claim is returned twice exactly when it cites
  nothing or the reply refutes it with a score that converts (`ListedTwiceIff`, `RefutedTwice`).
- **Supported below the threshold.** During the debate a supported claim falls below the threshold and
  stays supported exactly when it is defended and the weight of the challenges exceeds its margin
  (`BreaksThresholdIff`); there is such a claim for every threshold between nothing and one
  (`PenaltyBreaksThreshold`). After the rescoring there is none (`ReturnedClaimIsSound`).
- **One scrubbing pass can splice a marker.** Cutting `[S99]` out of `[S[S99]98]` leaves `[S98]`
  (`SpliceLeavesInvalidMarker`); the exact condition is in `ScrubIsExactIff`, and a local condition that
  rules it out in `CutsApartDoNotSplice`.
- **The fence's label is not sanitised.** A page title can contain the fence; a block is fenced exactly
  if and only if its label is free of it (`FencedExactlyIff`).
- **References end at 999.** Printing and extracting gives the same list back exactly when no number
  exceeds 999 (`PrintThenExtractIff`).

The lockout allows fewer guesses than the four extra that a partly used counter suggests:
`LockoutBound` is five for every started period, and `LockoutBoundIsTight` attains it.

## Model

| member | source | states |
|---|---|---|
| RateLimit.MemoryRateLimiter.constructor | backend/app/security/ratelimit.py:36-38 | no buckets, and the sweep clock starts now |
| RateLimit.MemoryRateLimiter.Check | backend/app/security/ratelimit.py:40-56 | sweep if 300 seconds have passed, forgetting what has been idle for more than four of the caller's windows; refill by the share of the limit that has accrued, up to the limit; spend one token and say how many whole ones are left, or deny with a wait; no other bucket changes |
| RateLimit.MemoryRateLimiter.Sweep | backend/app/security/ratelimit.py:58-62 | exactly the buckets idle for more than four of the caller's windows go |
| RateLimit.MemoryRateLimiter.Reset | backend/app/security/ratelimit.py:64-65 | all buckets go, the sweep clock stays |
| RateLimit.AccruedOverWindow | backend/app/security/ratelimit.py:41-50 | a bucket gains its whole limit in exactly one window |
| RateLimit.IdleBucketIsFull | backend/app/security/ratelimit.py:46-50 | a bucket idle for a window is full, so forgetting it changes nothing |
| RateLimit.SweptRefinesPlain | backend/app/security/ratelimit.py:40-62 | with windows within a factor of four, the swept and the never-swept limiter take identical decisions on every sequence of checks |
| RateLimit.ForgettingRunIsObserved | backend/app/security/ratelimit.py:44-62 | for any two windows further apart, three calls on which the swept limiter admits a check that the other denies |
| RateLimit.SweepUnobservableIff | backend/app/security/ratelimit.py:44-62 | sweeping is unobservable if and only if no window in use exceeds four times another |
| RateLimitBounds.OwnBucketDecides | backend/app/security/ratelimit.py:40-62 | for a key whose window is at most four windows of every caller: among calls on any keys, its decisions and its tokens are those of a private bucket |
| RateLimitBounds.ChecksSeeOneBucket | backend/app/security/ratelimit.py:40-62 | the same, for the same keys, from process start, when the private bucket is full |
| RateLimitBounds.GreedyIsOptimal | backend/app/security/ratelimit.py:40-62 | for every key, whatever the windows and whoever sweeps: no policy that never spends below zero admits more of its checks in any prefix |
| RateLimitBounds.GreedyIsAffordable | backend/app/security/ratelimit.py:50-56 | what is admitted never spends below zero, so the maximum is attained |
| RateLimitBounds.RateEnvelope | backend/app/security/ratelimit.py:41-56 | for a key whose window is at most four windows of every caller: in every interval at most the limit plus what accrues over the interval is admitted |
| RateLimitBounds.UnshelteredEnvelope | backend/app/security/ratelimit.py:40-62 | for every key, whatever the windows: at most the limit, what accrues, and the limit once more for every sweep in the interval by a caller with less than a quarter of its window; an interval holds at most one such sweep per 300 seconds and one more |
| RateLimitBounds.EarlySweepBreaksEnvelope | backend/app/security/ratelimit.py:44-62 | for any two windows further apart than four to one, a run that admits more than the limit and what accrues |
| RateLimitBounds.EnvelopeIff | backend/app/security/ratelimit.py:40-62 | every run keeps every key within the limit and what accrues in every interval if and only if no window in use exceeds four times another |
| RateLimitBounds.TokensWithinLimit | backend/app/security/ratelimit.py:46-56 | after every run of checks on any keys, swept or not, the key's tokens lie between zero and its limit |
| RateLimitBounds.DeniedChecksOnlyWait | backend/app/security/ratelimit.py:40-62 | through any calls, a denied key's bucket has exactly what has accrued since the first denial, or a sweep has taken it: refills compose across denied checks |
| RateLimitBounds.DeniedThenAdmittedIff | backend/app/security/ratelimit.py:40-62 | for every key, after a denial, whatever denied checks and other keys' checks come between: the next check is admitted if and only if the deficit has accrued or a sweep has taken the bucket, so a second after the hint always; and for a key whose window is at most four windows of every caller, never before the hint if a second or more was owed |
| RateLimitBounds.RetryHintSufficesIff | backend/app/security/ratelimit.py:55-56 | on the limiter, a check repeated exactly as long after its denial as the hint says is admitted if and only if the deficit takes at most a second or a whole number of seconds |
| RateLimitBounds.RetryHintFallsShort | backend/app/security/ratelimit.py:55-56 | three checks from process start of which the second is denied with a hint of 59 seconds and the third, 59 seconds later, is denied again |
| RateLimitBounds.RemainingIsExact | backend/app/security/ratelimit.py:50-54 | repeated at the same instant, exactly as many further checks are admitted as the admission said remain |
| EventBus.Queue.PutNowait | backend/app/services/events.py:44-49 | appended if there is room for one of 256, refused and unchanged otherwise |
| EventBus.Bus.Subscribe | backend/app/services/events.py:58-62 | a new empty queue joins the subscribers of that run only |
| EventBus.Bus.Unsubscribe | backend/app/services/events.py:64-68 | the queue leaves, and no run keeps an empty set of subscribers |
| EventBus.Bus.Publish | backend/app/services/events.py:41-49 | every subscriber is offered the event, and exactly those whose queue was full are dropped |
| EventBus.Bus.Close | backend/app/services/events.py:51-56 | every subscriber with room gets the sentinel, and nobody is unsubscribed |
| LiveTrace.StepKeepsInv | backend/app/services/runs.py:71-142 | every step of writer and streams keeps the invariant: what a stream has taken and queued are the published rows since it subscribed, and what it delivered is its replay and the new rows among those taken |
| LiveTrace.ConsumeKeepsDelivery | backend/app/api/routes_runs.py:173-182 | a dequeued item is accounted for whether it is new or was replayed |
| LiveTrace.AbandonKeepsInv | backend/app/services/runs.py:84-96 | an emit interrupted before its publication costs exactly its own row |
| TraceRows.ReplayedRowsAreDropped | backend/app/api/routes_runs.py:149-182 | skipping replayed numbers leaves exactly the rows behind the replay, although subscription precedes the history read |
| TraceRows.VisibleIsTraceIff | backend/app/api/routes_runs.py:143-182 | the whole trace is visible if and only if no row behind the replay was lost |
| LiveTraceSafety.DeliveredIsVisiblePrefix | backend/app/api/routes_runs.py:143-184 | in every interleaving each stream, even one dropped for a full queue, has delivered a prefix of the trace without the rows lost after its replay |
| LiveTraceSafety.DeliveredIncreases | backend/app/api/routes_runs.py:143-184 | what was delivered has strictly increasing numbers and consists of persisted rows |
| LiveTraceSafety.RowsSayWhatWasEmitted | backend/app/services/runs.py:71-96 | in every interleaving a row of the trace has the agent and the phase that were emitted under its number, and the message in full or its first 4000 characters |
| LiveTraceSafety.StreamsSayWhatWasEmitted | backend/app/api/routes_runs.py:152-184 | every delivered event says what was emitted under its number, and agrees with its row of the trace in number, agent and phase, and in the message up to 4000 characters |
| LiveTraceSafety.DeliveredIsTracePrefix | backend/app/api/routes_runs.py:143-184 | with no emit interrupted since the replay, what was delivered is a gap-free prefix of the persisted trace |
| LiveTraceSafety.LostRowsAreLast | backend/app/services/runs.py:120-160 | since an interrupted emit fails the run and only the notice follows, no row before the last two is ever lost |
| LiveTraceSafety.DeliveredIsTraceButForTwo | backend/app/api/routes_runs.py:143-184 | row by row, every stream has delivered the trace itself up to its last two rows |
| LiveTraceSafety.EndByClose | backend/app/api/routes_runs.py:177-179 | a stream that ended by the sentinel has delivered everything visible, the entire trace if and only if nothing was lost after its replay, and never less than all but two rows |
| LiveTraceSafety.EndByStatus | backend/app/api/routes_runs.py:150-167 | a stream that ended on a terminal status has delivered the entire trace of a completed run, and all but at most the last row of a failed or cancelled one |
| LiveTraceSafety.CaughtUp | backend/app/api/routes_runs.py:169-182 | a registered stream with an empty queue between emits has delivered everything visible |
| LiveTraceSafety.ClosedTraceIsFinal | backend/app/services/runs.py:136-142 | no row joins the trace once the close has begun |
| LiveTraceEmit.Emitter.Emit | backend/app/services/runs.py:71-96 | one persisted row with the next number of the run, the agent, the phase and the message up to 4000 characters; the full event, with the full message, to every subscriber with room for one of 256, and only the others are dropped |
| LiveTraceEmit.Emitter.Finish | backend/app/services/runs.py:136-142 | the numbering of the run is forgotten, every subscriber with room gets the sentinel, rows and registrations stay |
| LiveTraceEmit.Generate | backend/app/api/routes_runs.py:152-184 | yields the history and then the queued events not replayed, ends on the first sentinel or at once on a terminal status |
| LiveTraceEmit.EmitIsARun | backend/app/services/runs.py:71-96 | an uninterrupted emit is a run of the step system: the next number, one more row, and the event offered to every registered stream and no other, as by `Emitter.Emit` |
| LiveTraceEmit.CloseIsARun | backend/app/services/runs.py:136-142 | an uninterrupted close is a run of the step system that offers the sentinel to every registered stream and changes nothing else, as `Emitter.Finish` does |
| LiveTraceEmit.InterruptedEmitLeavesGap | backend/app/services/runs.py:120-160 | a reachable state of a run failed by an interrupted emit, in which a stream has delivered the notice and never the first row |
| RunLifecycle.RunManager.constructor | backend/app/services/runs.py:33-38 | no tasks and no flags |
| RunLifecycle.RunManager.Submit | backend/app/services/runs.py:42-45 | the run gets a task that waits for a permit |
| RunLifecycle.RunManager.Cancel | backend/app/services/runs.py:47-51 | true and flagged exactly when the run has a task |
| RunLifecycle.RunManager.CancelRun | backend/app/api/routes_runs.py:97-103 | refused for missing and for terminal runs, flagged otherwise if it has a task |
| RunLifecycle.RunManager.DeleteRun | backend/app/api/routes_runs.py:106-111 | the row goes with all that is stored for it, and its task is flagged |
| RunLifecycle.RunManager.SetStatus | backend/app/services/runs.py:144-151 | an existing row gets the status, a missing one is not recreated |
| RunLifecycle.RunManager.Persist | backend/app/services/runs.py:162-203 | an existing row gets its outcome and is completed, a missing one gets nothing |
| RunLifecycle.RunManager.RecoverOrphanedRuns | backend/app/services/runs.py:209-216 | exactly the running rows become failed |
| RunLifecycle.StepsAreMethods | backend/app/services/runs.py:42-203 | on what the manager, the handlers and startup share, the steps submit, cancel, delete, set running, persist, write the final status and recover have exactly the effect that the methods are proved to have |
| RunLifecycle.StepKeepsInv | backend/app/services/runs.py:98-142 | every step keeps permits, tasks, rows, stored outcomes and cancel flags consistent |
| RunLifecycle.StepKeepsPermits | backend/app/services/runs.py:101-142 | only acquiring and releasing change who holds a permit, and free permits and holders add up |
| RunLifecycleSafety.RunningRowsHoldPermits | backend/app/services/runs.py:98-142 | free permits and holders make up the maximum, and running rows of a live process belong to distinct holders, but for those whose final write failed |
| RunLifecycleSafety.StrandedIff | backend/app/services/runs.py:123-142 | a running row of a live process has no holder if and only if its final write failed and its task is through |
| RunLifecycleSafety.StrandingHappens | backend/app/services/runs.py:133-135 | a run from start to end that leaves such a row although all permits are free |
| RunLifecycleSafety.StrandedUntilFreed | backend/app/services/runs.py:144-216 | it stays so in every continuation without a deletion of the run or an end of the process |
| RunLifecycleSafety.RestartFreesStranded | backend/app/services/runs.py:209-216 | a restart fails the row |
| RunLifecycleSafety.RunAdvances | backend/app/services/runs.py:144-203 | over every run a row only moves forward, never leaves a terminal status, once deleted is never recreated nor given an outcome, and a stored outcome never changes |
| RunLifecycleSafety.StoredIffCompleted | backend/app/services/runs.py:162-203 | sources and claims are stored for exactly the completed rows |
| RunLifecycleSafety.FirstStage | backend/app/services/runs.py:101-104 | a task that holds its permit starts with the first stage, and its row says that it runs |
| RunLifecycleSafety.StagesLeadToOutcome | backend/app/agents/orchestrator.py:36-61 | six stages with a checkpoint behind each of the first five: a flagged run ends there, any other goes on, and what the sixth returns is what is stored with the completed row |
| RunLifecycleSafety.EndsHaveCauses | backend/app/services/runs.py:98-160 | in every run of the server a row is cancelled only if a cancel, a deletion or the shutdown asked for it, failed only if something was raised or the process restarted, and no flag outlives its cleanup unless someone asked again |
| RunLifecycleSafety.RecoveryLeavesNoOrphan | backend/app/services/runs.py:209-216 | after recovery no row is running, the others are untouched and all permits are free |
| RunLifecycleSafety.CancelledNeverCompletes | backend/app/agents/orchestrator.py:36-61 | a cancel that returns true while a checkpoint is ahead keeps the run from completing in every continuation |
| RunLifecycleSafety.CancelTooLateIff | backend/app/agents/orchestrator.py:58-61 | after a cancel the run can still complete if and only if its last checkpoint was passed and its outcome is not yet lost |
| RefreshTokens.TokenStore.IssuePair | backend/app/api/routes_auth.py:44-59 | one unrevoked row in the given family, or in a new one named after its digest |
| RefreshTokens.TokenStore.RevokeAll | backend/app/api/routes_auth.py:139-143 | every row of the family is revoked, and earlier revocation times stay |
| RefreshTokens.TokenStore.RefreshPair | backend/app/api/routes_auth.py:122-156 | accepts exactly a known, unrevoked, unexpired token of an active owner, marks it revoked now and appends its successor in the same family with a full time to live; a revoked one revokes its family; an unknown or expired one, or an inactive owner, changes nothing |
| RefreshTokens.TokenStore.LogoutToken | backend/app/api/routes_auth.py:159-169 | exactly the presented token is revoked, unless it was before; no row joins or goes |
| RefreshTokens.HandleKeepsChained | backend/app/api/routes_auth.py:119-169 | every request keeps families linear: a row followed by another of its family is revoked |
| RefreshTokens.LiveTokenIsNewestAndOnly | backend/app/api/routes_auth.py:44-59 | in every run an unrevoked token is the newest of its family and the only one |
| RefreshTokens.AcceptedIffLiveNewest | backend/app/api/routes_auth.py:122-156 | a refresh succeeds if and only if the token is the live newest of its family; its successor then is |
| RefreshTokens.IssuedTokenLivesForTtl | backend/app/api/routes_auth.py:44-59 | an issued token is accepted for exactly its time to live, belongs to the owner of its predecessor, and starts a family if and only if it comes from a login |
| RefreshTokens.DeadFamilyStaysDead | backend/app/api/routes_auth.py:137-156 | of a family without a live token no token is ever accepted again |
| RefreshTokens.ReplayKillsFamily | backend/app/api/routes_auth.py:137-147 | after a revoked token is presented, no token of its family is ever accepted |
| RefreshTokens.LogoutKillsFamily | backend/app/api/routes_auth.py:159-169 | after the live token is logged out, no token of its family is ever accepted |
| RefreshTokens.AcceptedTokenIsSpent | backend/app/api/routes_auth.py:155-156 | an accepted token is never accepted a second time, however late |
| Lockout.Login | backend/app/api/routes_auth.py:84-119 | every attempt by what it finds: while a lock runs it is refused and changes nothing; else it succeeds exactly for an active user with the right password, and clears counter and lock; else it counts, and the fifth failure locks for 15 minutes and resets the counter |
| Lockout.ValidSucceedsIff | backend/app/api/routes_auth.py:93-119 | an attempt is refused exactly while a lock runs, and a valid one succeeds if and only if none does |
| Lockout.SuccessClears | backend/app/api/routes_auth.py:93-119 | after a success, from any state of the account: up to four failures are answered as failures, a valid attempt behind them succeeds, and only a fifth failure locks, for 15 minutes |
| Lockout.LockoutBound | backend/app/api/routes_auth.py:93-117 | in any interval without a success at most five guesses reach the password for every started lockout period |
| Lockout.LockoutBoundIsTight | backend/app/api/routes_auth.py:103-107 | for every number of periods there are attempts that attain the bound |
| Lockout.LockedUntilPeriodEnds | backend/app/api/routes_auth.py:95-107 | after the fifth failure every attempt is refused exactly until the period is over |
| Budget.RunBudget.Charge | backend/app/agents/base.py:32-34 | one call and its tokens are added when a call returns |
| Budget.RunBudget.Admit | backend/app/agents/base.py:36-42 | a call starts exactly while tokens, calls and time are all below their ceilings |
| Budget.OvershootBound | backend/app/agents/base.py:79-90 | in every interleaving of at most `width` calls of at most `cost` tokens, started calls exceed the ceiling by less than `width` and tokens by less than `width * cost`, and tokens stay within their exact maximum |
| Budget.OvershootIsAttained | backend/app/agents/base.py:79-90 | the bound on started calls is attained for all limits |
| Budget.TokenOvershootIsAttained | backend/app/agents/base.py:79-90 | so is the bound on tokens: the exact maximum for all limits |
| Budget.FullOvershootIff | backend/app/agents/base.py:79-90 | the ceiling is overshot by a full width but one token if and only if the calls before the last can use up all but one token |
| Claims.VerifyOne | backend/app/agents/verifier.py:44-72 | for every reply: uncited is refuted at 0, a failed call is uncertain at 0.3; a judgement makes the claim supported if and only if its verdict is supported and the support reaches the threshold, and refuted if and only if its verdict is, so an unknown verdict is uncertain; one whose score does not convert leaves the status of its verdict and raises |
| Claims.VerifyAll | backend/app/agents/verifier.py:19-42 | every claim is updated in place, and those that raised leave the results |
| Debate.FactorIs | backend/app/agents/verifier.py:67-69 | a score keeps 0.8 of it if all cited sources are of one domain and all of it otherwise, and of that 0.6 and 0.4 times the mean credibility |
| Debate.JudgedSupport | backend/app/agents/verifier.py:64-69 | the support is the score times that factor, clamped between 0 and 1, to within half a thousandth; what is no number counts as nothing, what is infinite as all |
| Debate.FactorBounds | backend/app/agents/verifier.py:66-69 | corroboration and quality keep between 0.48 and all of a score, all of it if and only if two domains agree at full quality |
| Debate.ModulationOnlyLowers | backend/app/agents/verifier.py:64-69 | the support of a verified claim is no more than the rounded score of the model |
| Claims.Rebut | backend/app/agents/debate.py:74-112 | in-place effect of every rebuttal: the round is noted, a response is tagged with it, a revision of more than 15 characters replaces the text, a concession makes the claim uncertain, and support falls by the weights of the challenges and 0.15 for a concession, to nothing at worst; one of the wrong shape only notes the round and raises |
| Claims.SeriousIs | backend/app/agents/debate.py:41-72 | the serious challenges are exactly the medium and high ones among the first three |
| Claims.PenaltyIs | backend/app/agents/debate.py:102-105 | a medium challenge costs 0.08, a high one 0.2, any other 0.02 |
| Debate.RebuttalCosts | backend/app/agents/debate.py:94-106 | every answered serious challenge lowers support by at least 0.0795 or to nothing, and a concession makes the claim uncertain |
| Debate.HoldRound | backend/app/agents/debate.py:39-48 | one round over shared claims: it raises exactly if a critique, or an answer to a serious challenge, has the wrong shape; otherwise every claim changes as its own challenge and answer say, in the weights and the wording of the code, and nothing is unresolved exactly if nobody was seriously challenged |
| Debate.HoldRounds | backend/app/agents/debate.py:34-54 | rounds until the smaller of setting and depth, a halt, a settled round or an exception: when it raises, and which round every claim notes last |
| Debate.DebateStopsIff | backend/app/agents/debate.py:34-54 | a debate raises if and only if in some round within the limit, with nobody halting it and someone seriously challenged in every round before, a critique or an answer has the wrong shape |
| Debate.DebateNotesRounds | backend/app/agents/debate.py:34-54 | the round a claim notes is one that was held and in which it was challenged and answered, and it is the last of all if that was so in every round |
| Debate.EveryRoundCounts | backend/app/agents/debate.py:29-54 | a claim seriously challenged and answered in every round, with no halt, ends with exactly as many rounds as the smaller of setting and depth |
| Debate.Moderate | backend/app/agents/debate.py:26-58 | the stage raises exactly when some round that is held has a reply of the wrong shape; else it returns the rescored claims and then all that are refuted by then, each noting no round or one within both the setting and the depth |
| Debate.DebateKeepsRange | backend/app/agents/debate.py:29-54 | through every debate support stays in range and rounds within the limit |
| Debate.ScoresStayOnGrid | backend/app/agents/debate.py:106 | scores stay multiples of a thousandth |
| Debate.BreaksThresholdIff | backend/app/agents/debate.py:102-106 | one challenge leaves a supported claim supported below the threshold if and only if it is defended and the weight of the challenges exceeds its margin |
| Debate.PenaltyBreaksThreshold | backend/app/agents/debate.py:102-106 | there is such a claim, challenge and answer if and only if the threshold lies between nothing and one |
| Debate.DebateKeepsUnrefuted | backend/app/agents/debate.py:34-54 | no debate refutes a claim |
| Debate.RescoringForgetsDebateIff | backend/app/agents/debate.py:56-58 | the rescoring erases what the debate did to status and support if and only if it does not raise |
| Debate.ReturnedClaimIsSound | backend/app/agents/debate.py:56-58 | every returned claim was given, is scored in range, and is supported only at or above the threshold |
| Debate.ReturnedCounts | backend/app/agents/debate.py:56-58 | a claim is returned once if its rescoring returned, and once more if it is refuted |
| Debate.ContestedTimes | backend/app/agents/debate.py:56-58 | the reply to the rescoring alone decides whether a contested claim is returned never, once or twice |
| Debate.MissingIff | backend/app/agents/debate.py:56-58 | a contested claim is lost if and only if it cites a source and the reply is of the wrong shape, or its score does not convert and its verdict is not a refutation |
| Debate.ListedTwiceIff | backend/app/agents/debate.py:56-58 | it is listed twice if and only if it cites nothing, or the reply refutes it with a score that converts |
| Pipeline.Extract | backend/app/agents/analyst.py:50-64 | of the first four drafts exactly those with a text and a known reference become new claims, with the unknown references filtered |
| Pipeline.KnownRefsKept | backend/app/agents/analyst.py:50-64 | of the references of a draft exactly the known ones are kept, in their order |
| Pipeline.DraftsAccepted | backend/app/agents/analyst.py:50-64 | the accepted drafts are exactly those with a text and a known reference, in their order, with their texts |
| Pipeline.FirstFour | backend/app/agents/analyst.py:50-64 | at most the first four drafts of an extraction are looked at |
| Pipeline.Dedupe | backend/app/agents/analyst.py:66-76 | exactly the claims at which a key occurs first, in order |
| Pipeline.KeptKeysDiffer | backend/app/agents/analyst.py:66-76 | what is kept has distinct keys, in the order of the input |
| Pipeline.DroppedKeysAreKept | backend/app/agents/analyst.py:66-76 | what is dropped has the key of something kept before it |
| Pipeline.ExtractAll | backend/app/agents/analyst.py:23-31 | the claims are the accepted drafts of all extractions that did not fail, in order |
| Pipeline.Analyze | backend/app/agents/analyst.py:17-35 | the claims are exactly the candidates: nothing without sources, else the first accepted draft of every key |
| Pipeline.CandidatesAreGrounded | backend/app/agents/analyst.py:50-76 | every candidate has a text, cites sources only and at least one, and differs from the others by key |
| Pipeline.ContendersEnter | backend/app/agents/debate.py:31 | the claims that enter the debate are those whose verification returned without refuting them |
| Pipeline.Research | backend/app/agents/orchestrator.py:46-59 | whatever the model replies: the claims are the candidates, the pipeline returns unless the debate raises, and for every claim its final state and how often it is returned are settled by the replies; those returned are grounded, in range, supported only at or above the threshold, have rounds within both setting and depth and exactly the smaller of them when challenged and answered throughout, are listed once unless refuted, and stand in order, the refuted ones last |
| Pipeline.RefutedTwice | backend/app/agents/debate.py:56-58 | a run of the pipeline that returns a claim twice |
| Pipeline.LostClaim | backend/app/agents/verifier.py:29-30 | a run of the pipeline that loses its only claim |
| Searcher.Search | backend/app/agents/searcher.py:23-56 | the loops compute the greedy selection over the batches that did not fail, and it is sound |
| Searcher.FlatHolds | backend/app/agents/searcher.py:27-31 | the results of every query that came back follow those of the earlier ones, which a failed query leaves alone |
| Searcher.TurnOf | backend/app/agents/searcher.py:31-49 | when a result's turn comes it is appended under the next number, with its address, domain and credibility, if its URL is new and its domain has fewer than three sources, and otherwise changes nothing |
| Searcher.SelectedIsSound | backend/app/agents/searcher.py:31-49 | distinct URLs, at most three per domain, references S1 to Sn in order, every source a result |
| Searcher.SelectedRefsDiffer | backend/app/agents/verifier.py:23 | references are pairwise distinct, so the table by reference finds every source under its own |
| Numerals.DecimalValue | backend/app/agents/searcher.py:42 | the digits of a reference spell its number |
| Searcher.RejectedForCause | backend/app/agents/searcher.py:31-37 | every result is selected, or its URL was, or its domain had reached its cap |
| Searcher.SelectedIsMaximal | backend/app/agents/searcher.py:31-49 | no result can be added to the selection |
| Searcher.PrintThenExtractIff | backend/app/agents/synthesizer.py:30 | printing references as markers and extracting them gives the same list back if and only if none exceeds 999 |
| Citations.ExtractRefs | backend/app/services/citations.py:7-12 | the references of the markers found from left to right, with decimal digits of any script |
| Citations.OtherScripts | backend/app/services/citations.py:7-12 | digits of other scripts are digits of a marker |
| Citations.EnforceValidRefs | backend/app/services/citations.py:15-26 | the text with exactly the invalid markers cut out, and how many they were |
| Citations.ScanPrints | backend/app/services/citations.py:7-12 | the scan splits the text into markers and characters without overlap or loss |
| Citations.ScrubIsExactIff | backend/app/services/citations.py:15-26 | the markers of the output are the valid ones of the input, in order, if and only if no cut splices plain characters to a marker |
| Citations.ScrubbedIsClean | backend/app/services/citations.py:15-26 | without a splice no invalid marker is left and a second pass changes nothing |
| Citations.SecondPassIsIdleIff | backend/app/services/citations.py:15-26 | a pass changes nothing if and only if the text has no invalid marker |
| Citations.CutsApartDoNotSplice | backend/app/services/citations.py:15-26 | no splice if no cut marker stands right behind a proper prefix of a marker |
| Citations.SpliceLeavesInvalidMarker | backend/app/services/citations.py:15-26 | a text on which one pass leaves an invalid marker |
| Sanitize.SanitizeContent | backend/app/security/sanitize.py:44-53 | for every text, markup stripper, pattern list and limit: the text is stripped, passes every filter in order, has its fences replaced by `[filtered]` and is cut at the limit with a suffix; it never contains the fence; a short text without fence is what the filters left; if every filter removes its own pattern and none brings back another, no pattern occurs in what they left; the findings are those of the stripped text |
| Sanitize.ReplaceFirstOccurrence | backend/app/security/sanitize.py:50 | replacing rewrites the first occurrence and goes on behind it, and a text without one is left alone |
| Sanitize.FoundAppend | backend/app/security/sanitize.py:39-41 | one more pattern is reported behind the others if it occurs in the same text |
| Sanitize.WrapUntrusted | backend/app/security/sanitize.py:56-59 | the block is the fence, the label in brackets, the sanitised text of at most 6000 characters and the fence; it is fenced at its start and its end and nowhere else if and only if the label is free of the fence |
| Sanitize.ReplacedHasNone | backend/app/security/sanitize.py:50 | left-to-right replacement leaves no occurrence and creates none |
| Sanitize.SafeHasNoFence | backend/app/security/sanitize.py:50-53 | nor does truncating and appending the suffix |
| Sanitize.HarmlessTextIsKept | backend/app/security/sanitize.py:50-53 | a short text without the fence is passed on unchanged |
| Sanitize.FoundMembers | backend/app/security/sanitize.py:39-41 | a pattern is reported if and only if it occurs |
| Sanitize.CleanTextIsKept | backend/app/security/sanitize.py:44-53 | a short text in which nothing is found is passed on as it was stripped |
| Sanitize.FencesOfBlock | backend/app/security/sanitize.py:59 | every position of the fence in a block lies wholly in one of its parts |
| Sanitize.FencedExactlyIff | backend/app/security/sanitize.py:56-59 | with a fence-free text, a block is fenced exactly if and only if its label is free of the fence |
| Sanitize.LabelCanForgeFence | backend/app/agents/analyst.py:38-40 | a label of the analyst's form whose title is the fence forges one |
| Markdown.EscapeHtml | frontend/src/lib/markdown.ts:10-17 | five successive global replacements equal one simultaneous character map |
| Markdown.FiveReplacesAreOneMap | frontend/src/lib/markdown.ts:10-17 | no later replacement touches what an earlier one put in |
| Markdown.EntitiesAre | frontend/src/lib/markdown.ts:10-17 | the five characters and their entities; every other character stands for itself |
| Markdown.EscapedIsInert | frontend/src/lib/markdown.ts:10-17 | neither angle brackets nor quotes are left |
| Markdown.UnescapeInverts | frontend/src/lib/markdown.ts:10-17 | reading the entities back gives the text |
| Markdown.EscapedIsInjective | frontend/src/lib/markdown.ts:10-17 | different texts never escape alike |
| Markdown.SplitJoins | frontend/src/lib/markdown.ts:47 | splitting at line feeds loses nothing and leaves none |
| Markdown.ClassifyIff | frontend/src/lib/markdown.ts:48-75 | a line is blank if it is all spaces, a heading if it matches one to four hash signs, spaces and a text of one line, a bullet if it starts with a dash or a star and a space, a rule if it is three or more dashes, and otherwise a paragraph; it loses nothing but its markup and the spaces around its text |
| Markdown.SpacesAre | frontend/src/lib/markdown.ts:48-75 | the white space that trimming and the patterns know, none of it a printing ASCII character |
| Markdown.RenderMarkdown | frontend/src/lib/markdown.ts:36-79 | the result is the specified blocks of the classified lines, shown and joined |
| Markdown.RenderBlocks | frontend/src/lib/markdown.ts:47-77 | the loop with its open-list flag emits the specified blocks |
| Markdown.RenderedWellFormed | frontend/src/lib/markdown.ts:36-79 | list tags match, do not nest and hold exactly the items, no list stays open, and every line that is not blank is rendered once in order |
| Markdown.RenderedLine | frontend/src/lib/markdown.ts:48-75 | the text of a single line goes through the inline markup into `<h1>` to `<h4>`, a list of one item, `<hr />` or `<p>` |

## Left out

- Claims.VerifyAll: takes the claims one after the other; the code verifies up to four at once, but each verification writes only its own claim.
- LiveTrace.StepKeepsInv: does not model the deletion of a run while its trace is streamed, hard cancellation of its task, or process death.
- RefreshTokens.HandleKeepsChained: takes every handler as one serialised transaction; the code takes no row lock, so two refreshes of the same token at once are outside the model.
- Budget.OvershootBound: takes the number of calls in flight and the cost of a call as given bounds.
- RunLifecycleSafety.CancelledNeverCompletes: is about cooperative cancellation; the hard `task.cancel()` of a shutdown that times out is covered only as a crash.
- Claims.VerifyOne: scores are exact reals rounded half up to three decimals, where the code has floats and rounds half to even; credibilities are assumed such that an infinite score clamps to one.
- Inline Markdown (code, strong, links with their scheme check) and what the injection and markup patterns match.
- Termination of every stream: the code does not promise it, since the status is read before subscribing and `close` skips full queues.
- Runs still queued when a process dies: nothing is claimed of them.
- JSON payloads of events and their truncation, levels, timestamps and heartbeats.
- Aliasing of bucket objects and of claim lists inside stored rows: buckets and rows are values in the maps of their class.
- The planner, citation coverage, uncited sentences, the references block and the confidence formula: plain computations.
- Cryptography: digests and family identifiers are assumed fresh; access tokens, password hashing, registration and the audit log are left out.
- HTTP routing, sessions, configuration, the model, search and fetch clients, and the user interface.
