# EvalFlow: verified models of its stateful protocols

EvalFlow evaluates datasets against model variants.  This project models, in Dafny, the parts of it
that keep state across failures and concurrency, and proves what each of them promises:

- **The evaluation run** (`RunModel`, `RunEffects`, `RunSafety`, `RunCount`, `RunCancellation`,
  `RunCompletion`, `RunProgress`, `RunWorker`, `RunComposition`, `TaskManager`, `InProcess`).  A run row, its stored
  results and any number of worker attempts form a transition system whose steps are single
  await-to-await segments: the reads and the commit of the preparation, the refresh and the commit of
  each result, the final refresh and the final commit, the reload and the commit of the terminal state
  are all separate.  Attempts crash, are interrupted, fail and are redelivered while older ones are
  alive; the API cancels at any moment; variants are renamed and inputs edited.  A commit writes only
  columns whose value differs from the one last read, as the object-relational mapper does.  Commits do
  not expire the row an attempt holds (`backend/db/session.py:17-21`), so an exception between
  transactions ends the attempt by the status in memory, and any other by the status read again.
  `RunWorker` is the same code as classes over mutable fields, each method proved equal to its step.
- **The runner** (`Scheduler`, `Runner`, `Evaluation`, `TextMetrics`, `Summaries`,
  `SummaryMeaning`).  The semaphore, the
  indexed slots, completion in any order, the clean-up; the evaluation of one item; the text metrics;
  and the two summaries, one filtered per variant and one grouped in a single pass.
- **Sessions and account tokens** (`AuthModel`, `AuthEffects`, `SessionChains`, `PasswordReset`,
  `AuthStore`) and the browser client composed with them (`RefreshClient`, `RefreshRetry`, `ApiClient`).  One endpoint transaction is one
  step; tokens, families and user ids are drawn unused and hashing is injective.
- **Limiters and the model-catalog cache** (`RateLimit`, `RedisRateLimit`, `ModelCatalog`): bounded
  structures against a ghost history that keeps everything.
- **Exports** (`Csv`, `ResultPages`): the CSV printer against a reader written from section 2 of
  RFC 4180, and the paged collection of results in a total order.

`Wrappers.dfy` holds optional values and facts about finite collections.

## What the code does that its documentation does not say

- A cancel is not final.  It is overwritten when it lands between an attempt's first read of a run that
  is not `running` and the commit of its preparation (`CancelInPrepareWindowIsLost`), between the final
  refresh and the final commit, or when an attempt is about to record a failure over another status than
  the one it remembers.  `CancelSticksIff` gives the exact condition; `Clear` is a condition on the
  attempts' positions at the time of the cancel.
- A redelivered attempt that reads `running` assigns `running` again, which is no net change and is not
  written: such an attempt does not overwrite a cancel that arrives during its preparation.
- `completed` is not final either, even without exceptions: an attempt that is still preparing or looping
  beside a completed run may put `running` or `failed` in its place.  `CompletedSticksIff` gives the exact
  condition.  With exceptions it never is final (`CompletedCanBecomeCancelled`).
- Overlapping attempts can lose a count (`OverlapLosesACount`).  `StepExactIff` and `CountExactIff` say
  which steps make the counter differ from the stored results, `RunDeficit` by how much.
- A refresh that fails between the commit of its rotation and its response leaves the browser with a
  replaced token; its next refresh ends the family (`ReplayEndsFamily`).  It is the only way there
  (`ReplaysIffLost`).
- The delay a refused hit is given is rounded, so on a clock with fractions waiting exactly that
  long can still be refused (`RetryAfterSuffices` and, for Redis, `WaitEnds` say when).
- A catalog request that overlaps a later one stores with its earlier clock reading and may evict an
  entry that expires after its own (`OverlappingRequests`; `EvictionOrderIff` says when).
- A CSV export of no rows reads back as one row, and an empty row as one empty cell (`RoundTripIff`).

## Model

| member | source | states |
|---|---|---|
| RunSafety.ReachableSafe | backend/services/run_execution.py:144-280 | over every interleaving of overlapping, crashing and redelivered attempts, cancels and input edits, no pair is stored twice, stored pairs refer to inputs of the run, and the counter never exceeds the stored results or the total |
| RunSafety.CompletedMeansSnapshotStored | backend/services/run_execution.py:266-280 | only a final commit turns a run `completed`, and then every pair of that attempt's snapshot is stored |
| RunSafety.FixedInputsCount | backend/services/run_execution.py:210-264 | with fixed inputs and any number of overlapping attempts: completed <= stored <= items x variants = total, and a `completed` run has every pair stored |
| RunSafety.ExclusiveCount | backend/services/run_execution.py:248-264 | with one live attempt at a time the counter equals the number of stored results in every reachable state |
| RunSafety.ExclusiveNeverConflicts | backend/db/models.py:338-344 | with one live attempt at a time no result commit ever meets the unique constraint |
| RunCount.StepExactIff | backend/services/run_execution.py:210-264 | from an exact counter a step keeps it exact if and only if it neither counts a result on from a stale number nor writes a stale number of existing results |
| RunCount.RunDeficit | backend/services/run_execution.py:210-264 | along every run the counter misses exactly what its stale steps lost |
| RunCount.LossesAreShortfalls | backend/services/run_execution.py:210-264 | in every reachable state the losses add up to the shortfall of the counter, never to an excess |
| RunCount.CountExactIff | backend/services/run_execution.py:210-264 | a run of a new row keeps the counter exact in every state if and only if none of its steps is stale |
| RunCount.OverlapLosesACount | backend/services/run_execution.py:249-264 | every new run with two tasks has a run of two overlapping attempts that stores two results and counts one |
| RunSafety.PrepareFixed | backend/services/run_execution.py:210-219 | over unchanged inputs the preparing commit never violates the progress constraint |
| RunSafety.PersistFixed | backend/services/run_execution.py:255-264 | over unchanged inputs a result commit fails if and only if the pair is already stored |
| RunSafety.StoredPairInjective | backend/services/run_execution.py:90-93 | distinct tasks of one snapshot are stored under distinct pairs |
| RunEffects.FaultFails | backend/services/run_execution.py:347-354 | from every state an exception other than a cancellation, at any await before the end, leaves the run `failed` and everything else as it was |
| RunEffects.InterruptCancels | backend/services/run_execution.py:332-335 | a cancellation likewise leaves it `cancelled` |
| RunEffects.FaultFailsFromMemory | backend/services/run_execution.py:118-125 | between transactions an exception writes `failed` unless the attempt remembers that very status, and then leaves the status as it is |
| RunEffects.InterruptCancelsFromMemory | backend/services/run_execution.py:118-125 | the same of a cancellation and `cancelled` |
| RunEffects.MissingInputsFail | backend/services/run_execution.py:163-177 | an attempt on a run whose items or variants are gone leaves it `failed`, on any other it goes on |
| RunEffects.ConflictFails | backend/services/run_execution.py:255-264 | a pair stored meanwhile makes the result commit and with it the run fail |
| RunEffects.SeenCancelStops | backend/services/run_execution.py:249-276 | an attempt that sees the cancel in a refresh stores nothing more and leaves the run `cancelled` |
| RunEffects.TakenUpIff | backend/services/run_execution.py:159-161 | exactly pending, running and failed runs are taken up |
| RunEffects.PreparationWrites | backend/services/run_execution.py:210-219 | over an unchanged row the preparing commit writes `running`, the number of results read and the size of the grid, or is refused |
| RunEffects.ResultWrites | backend/services/run_execution.py:255-264 | the result commit adds the pair of the task and one to the number last read |
| RunEffects.RefreshReads | backend/services/run_execution.py:249-252 | the refresh takes over the stored status and number and writes nothing |
| RunEffects.CompletionWrites | backend/services/run_execution.py:274-280 | from its final refresh an undisturbed attempt writes `completed` and nothing else |
| RunEffects.CancelWrites | backend/api/runs.py:472-490 | a cancel takes pending and running runs to `cancelled` and leaves every other as it is |
| RunEffects.SchedulingFailureFails | backend/api/runs.py:278-288 | a run that could not be scheduled is `failed`, whatever it has become since |
| RunCancellation.CancelSticksIff | backend/api/runs.py:472-490 | an accepted cancel survives every continuation without unrelated exceptions if and only if no attempt holds a status or a read that a later commit would write over it |
| RunCancellation.UnclearOverwrites | backend/services/run_execution.py:210-280 | for every unclear cancelled state, a continuation without exceptions after which the run is no longer cancelled |
| RunCancellation.CancelBoundsResults | backend/services/run_execution.py:248-264 | after a clear cancel at most one further result is stored per attempt past its refresh |
| RunCancellation.LoneAttemptCancelled | backend/services/run_execution.py:249-276 | one live attempt, cancelled after its preparing commit and before its final refresh: at most one further result, and `cancelled` in every later state, so `completed` is never written |
| RunCancellation.CancelInPrepareWindowIsLost | backend/services/run_execution.py:159-219 | for every new run a cancel between the first read and the preparing commit is accepted and then replaced by `running` |
| RunCompletion.CompletedSticksIff | backend/services/run_execution.py:144-280 | a completed run stays completed in every continuation without exceptions if and only if no attempt beside it prepares from another status or a stale list, has tasks left, or is ending with another status |
| RunCompletion.UnsettledOverwrites | backend/services/run_execution.py:118-280 | for every other completed state, a continuation without exceptions after which the run is no longer completed |
| RunCompletion.ResultFails | backend/db/models.py:338-344 | beside a completed run every result commit fails on the unique constraint and leads to the `failed` ending |
| RunCompletion.CompletedCanBecomeCancelled | backend/services/run_execution.py:332-335 | a redelivered attempt interrupted before it sees the status turns any completed run into a cancelled one |
| RunProgress.NamesAndIdsInverse | backend/services/run_execution.py:234-236 | under name uniqueness the id-to-name and name-to-id maps are inverse to each other |
| RunProgress.ResumesTheMissingAsRead | backend/services/run_execution.py:185-202 | whoever else is at work, a resumed attempt takes up exactly the pairs it has not read as stored, under present names, after any renames |
| RunProgress.ResumesExactlyTheMissing | backend/services/run_execution.py:185-202 | with one live attempt at a time a resumed attempt takes up exactly the pairs of its snapshot without a stored result |
| RunProgress.CommitShrinksMissing | backend/services/run_execution.py:255-264 | every accepted result commit strictly shrinks the set of pairs without a result |
| RunProgress.AttemptIsBounded | backend/services/run_execution.py:283-365 | an attempt that is not killed takes at most 2 x items x variants + 10 steps, however others are interleaved |
| RunProgress.AttemptNeverStuck | backend/services/run_execution.py:283-365 | an attempt that is not over always has a next step other than an exception |
| RunProgress.UndisturbedAttemptCompletes | backend/services/run_execution.py:241-280 | after any history without overlap or cancel, an attempt left alone to its end completes the run with exactly one result per pair and a full counter |
| RunWorker.RunStore.constructor | backend/api/runs.py:265-275 | a new run is pending, with the product of its inputs as total, nothing counted and nothing stored |
| RunWorker.RunStore.CancelRun | backend/api/runs.py:472-490 | accepts exactly pending and running runs, which become `cancelled`; it is the cancel step of the protocol |
| RunWorker.RunStore.FailScheduling | backend/api/runs.py:278-288 | the create endpoint records `failed` when the scheduler raises |
| RunWorker.RunAttempt.ReadRow | backend/services/run_execution.py:149-161 | the first read in place equals its protocol step: finished and cancelled runs are left alone |
| RunWorker.RunAttempt.ReadItems | backend/services/run_execution.py:163-177 | the item read equals its step, with the error on missing inputs |
| RunWorker.RunAttempt.ReadResults | backend/services/run_execution.py:185-193 | the read of existing results equals its step |
| RunWorker.RunAttempt.CommitPrepare | backend/services/run_execution.py:194-238 | assigning the row, committing and building the snapshot equals the prepare step, including the rejected commit |
| RunWorker.RunAttempt.Refresh | backend/services/run_execution.py:249-254 | the refresh of status and counter with the cancellation test equals its step |
| RunWorker.RunAttempt.CommitResult | backend/services/run_execution.py:255-264 | adding the row, advancing the cached counter and committing equals its step, including constraint failures |
| RunWorker.RunAttempt.Commit | backend/services/run_execution.py:264-264 | a commit writes exactly the changed columns and the added result, or, when a constraint fails, nothing |
| RunWorker.RunAttempt.FinalRefresh | backend/services/run_execution.py:274-276 | the final refresh equals its step |
| RunWorker.RunAttempt.CommitFinal | backend/services/run_execution.py:277-280 | the final assignment and commit equals its step |
| RunWorker.RunAttempt.Raise | backend/services/run_execution.py:332-349 | interruption leads to the `cancelled` ending and any other exception to the `failed` one; the row is read again exactly if a transaction was open or under way or nothing had been read |
| RunWorker.RunAttempt.Fail | backend/services/run_execution.py:118-119 | the roll back drops what was assigned; without an open transaction it leaves the remembered status for the ending |
| RunWorker.RunAttempt.ReadForEnding | backend/services/run_execution.py:118-121 | the reload of an expired row equals its step |
| RunWorker.RunAttempt.CommitEnding | backend/services/run_execution.py:122-125 | writing the terminal status equals its step, so it overwrites whatever differs |
| RunComposition.RunnerEvaluatesTodo | evals/runner.py:86-92 | the runner's inputs for a prepared run name every task still to do, no other, each once |
| TaskManager.RunTaskManager.Start | backend/services/task_manager.py:15-26 | a run is refused exactly while it is listed; otherwise it has no unfinished task and gets one new one |
| TaskManager.RunTaskManager.OneUnfinishedTaskPerRun | backend/services/task_manager.py:15-26 | two unfinished tasks of one run are the same task, in every state |
| TaskManager.RunTaskManager.Cancel | backend/services/task_manager.py:28-34 | true exactly when the run had an unfinished task, which is then finished; no other task changes |
| TaskManager.RunTaskManager.RequestShutdown | backend/services/task_manager.py:37-39 | collects and cancels exactly the unfinished tasks |
| TaskManager.RunTaskManager.AwaitAll | backend/services/task_manager.py:40-41 | whatever has been started meanwhile, the collected tasks are finished and no other task changes |
| TaskManager.RunTaskManager.Shutdown | backend/services/task_manager.py:36-41 | with nothing started during the wait, no task ever started is left unfinished |
| TaskManager.RunTaskManager.Discard | backend/services/task_manager.py:43-47 | a completed task is forgotten, a newer one under the same run is not |
| InProcess.ManagedRunIsExclusive | backend/services/task_manager.py:15-49 | deliveries made only through the manager never overlap: the protocol steps form an exclusive run |
| InProcess.ManagedCount | backend/services/task_manager.py:15-49 | so under in-process scheduling the counter equals the stored results in every reachable state |
| Scheduler.ReachableBounded | evals/runner.py:94-119 | in every reachable state at most `concurrency` calls are in flight and none is repeated; however the function leaves, and however often it is interrupted, nothing is left running |
| Scheduler.ReturnedIsComplete | evals/runner.py:106-121 | a return means every slot holds its own task's result, with one generator call and one callback per task |
| Scheduler.RunsAreBounded | evals/runner.py:108-119 | every execution is over within 4n + 3 steps whatever the order, interruptions of its clean-up aside |
| Scheduler.NeverStuck | evals/runner.py:102-119 | with a permit, some step other than a failure is possible until the function leaves |
| Runner.IndexedInputsSpec | evals/runner.py:86-92 | the enumeration holds exactly the pairs not skipped, each once, item-major |
| Runner.OrderedUnique | evals/runner.py:86-92 | that order leaves no freedom: two such enumerations of the same pairs are equal |
| Runner.Perform | evals/runner.py:102-119 | one event applied in place to the task table and the slots equals the machine's step |
| Runner.RunEvaluation | evals/runner.py:74-121 | for every completion order and every generator: a returned list has the evaluation of pair k at position k, with one generator call and one callback each; an error exactly for concurrency below 1; in every other case no task it created is left unfinished |
| Runner.ResultIffNotSkipped | evals/runner.py:87-121 | a pair has a returned result if and only if it is not skipped |
| Runner.ResultsAreDistinct | evals/runner.py:87-121 | no pair has two returned results |
| Evaluation.EvaluateOneWellFormed | evals/runner.py:22-71 | whatever the generator does the result has either metrics and an output or an error and no usage, an error exactly when it raised, a quality in [0, 1], and the own values, latency and message of the item, the variant and the generator |
| Evaluation.MetricsMeasure | evals/metrics.py:38-47 | the three metrics measure the output of the generator: one text up to case and padding, equal normal forms, and the share of the keywords that occur in it; quality is their mean |
| TextMetrics.KeywordScore | evals/metrics.py:24-35 | the counting loop computes the share of keywords found |
| TextMetrics.ScoreCountsHits | evals/metrics.py:28-35 | the score is the number of positions whose keyword occurs, by the number of keywords |
| TextMetrics.NormalizedPartIsContained | evals/metrics.py:11-17 | the normalised output is a contiguous part of the normalised whole |
| TextMetrics.KeywordScoreMonotone | evals/metrics.py:24-35 | text around an output never lowers its keyword score, which lies in [0, 1] |
| TextMetrics.FullScoreIff | evals/metrics.py:31-35 | the score is 1 if and only if every keyword occurs |
| TextMetrics.ExactMatchIff | evals/metrics.py:7-8 | an exact match means that both texts, lowered, are one text between white space |
| TextMetrics.ExactImpliesNormalized | evals/metrics.py:7-21 | an exact match is a normalised exact match |
| TextMetrics.NormalizeFixesNormalForms | evals/metrics.py:11-17 | normalisation is idempotent and leaves alone exactly the texts in normal form |
| Summaries.SummarizeResults | evals/runner.py:124-188 | one summary per variant in order, each the one whose figures `SummaryMeaning` spells out |
| Summaries.GroupBy | backend/api/runs.py:90-124 | the single pass yields a group exactly for the variants met, with all of that variant's rows accumulated |
| Summaries.SummarizeDatabaseResults | backend/api/runs.py:121-169 | one summary per variant in order, from its group or all zero, with the figures `SummaryMeaning` spells out |
| SummaryMeaning.OneMoreResult | evals/runner.py:131-185 | one more result adds itself, its reported tokens, cost, retries and error to the summary of its variant and nothing to any other |
| SummaryMeaning.AveragesMean | evals/runner.py:134-173 | each average is the mean of the values that the variant has, quality being the mean of the three metrics; 0 without any |
| SummaryMeaning.NoResults | evals/runner.py:131-185 | without results every figure is 0 |
| SummaryMeaning.OneMoreRow | backend/api/runs.py:90-120 | the same of one more stored row and the grouped summary |
| SummaryMeaning.RowAveragesMean | backend/api/runs.py:90-120 | the same of the grouped averages: missing metrics are left out, a missing latency counts as 0 |
| Summaries.OrderIrrelevant | backend/api/runs.py:118-120 | a group's accumulators do not depend on the order of the rows |
| Summaries.SummariesAgree | backend/api/runs.py:81-169 | over any order of the stored rows the grouped summary equals the filtered summary of the results, null-skipping averages included |
| Summaries.GroupsConserve | backend/api/runs.py:90-120 | the groups of all variants add up to the whole run, averaged sums and their counts included |
| Summaries.SummariesConserve | backend/api/runs.py:125-169 | the summaries account for every result, token, cost, retry and error of the run once |
| Summaries.WholeCountsRows | backend/api/runs.py:93-93 | the whole run counts as many results as rows |
| Summaries.ScoredOrError | evals/runner.py:128-134 | for evaluated results, scored ones and errors add up to all |
| SessionChains.ReachableChains | backend/services/auth_sessions.py:52-159 | in every reachable state every family is one acyclic chain of one user, all but the tail revoked and pointing to their successor |
| SessionChains.RotationExtendsChain | backend/services/auth_sessions.py:109-121 | a rotation appends the replacement to its family's chain |
| SessionChains.AtMostOneActive | backend/services/auth_sessions.py:109-121 | at most one session of a family is active, and it is not replaced |
| SessionChains.RevokedTailIsDead | backend/services/auth_sessions.py:88-97 | a revoked session without a replacement means the family has no active session, so the skipped update is not needed |
| SessionChains.ReuseKillsFamily | backend/services/auth_sessions.py:88-97 | after a rejected reuse the family has no active session, in both branches |
| SessionChains.RowsStay | backend/services/auth_sessions.py:52-159 | sessions keep user and family, are never removed and never become active again |
| SessionChains.DeadForever | backend/services/auth_sessions.py:52-159 | a family without active sessions never gains one |
| SessionChains.ReuseEndsFamilyForever | backend/services/auth_sessions.py:88-97 | after a reuse no token of the family is ever rotated again |
| AuthEffects.RotatesIff | backend/services/auth_sessions.py:84-121 | a rotation succeeds if and only if the session is known, not revoked, not expired, and of an active user |
| AuthEffects.RefusesIff | backend/services/auth_sessions.py:84-107 | when each of the four refusals is given, as an if and only if |
| AuthEffects.RotationEffect | backend/services/auth_sessions.py:109-121 | the replacement has the same user and family and a new lifetime, the presented session is revoked and points to it, and no other row changes |
| AuthEffects.RefusalEffect | backend/services/auth_sessions.py:84-107 | expiry and inactivity revoke that one row, a reuse of a replaced session its family, and any other refusal changes nothing |
| AuthEffects.LogoutEffect | backend/services/auth_sessions.py:124-146 | a logout revokes the active sessions of the family presented and no others |
| AuthEffects.RevokeAllEffect | backend/services/auth_sessions.py:149-159 | exactly the active sessions of the user are revoked |
| AuthEffects.SessionHistory | backend/services/auth_sessions.py:52-159 | over every run a session keeps user, family and expiry and is active until the first step that ends it |
| AuthEffects.SessionWorksIff | backend/services/auth_sessions.py:71-121 | when a refresh token still works after any run: nothing has ended its session since, it has not expired, and its user is active |
| PasswordReset.TokenHistory | backend/services/account_tokens.py:29-97 | a token is unconsumed later exactly when it was and nothing has spent its user's tokens for its purpose |
| PasswordReset.OutstandingIsLatest | backend/services/account_tokens.py:36-52 | every outstanding token is the latest issued to its user for its purpose |
| PasswordReset.IssuedTokenWorksIff | backend/services/account_tokens.py:56-82 | when an issued token is accepted later, as an if and only if |
| PasswordReset.ResetEffect | backend/api/auth.py:498-521 | a successful reset leaves no live reset token and no active session of the user, and touches no one else's rows |
| PasswordReset.ResetUsesLatestToken | backend/api/auth.py:498-521 | a successful reset used the latest reset token issued to the user |
| PasswordReset.ResetTokenWorksOnce | backend/api/auth.py:498-521 | the token is refused in every later state |
| PasswordReset.ResetEndsEverySession | backend/api/auth.py:516-521 | every refresh token the user held fails rotation in every later state |
| PasswordReset.ResetLeavesFamiliesDead | backend/api/auth.py:516-521 | every family of the user is without an active session right after the reset |
| AuthEffects.ValidIff | backend/services/account_tokens.py:61-82 | a token is valid if and only if it is known for that purpose, not consumed, not expired, and of an active user |
| AuthEffects.IssueEffect | backend/services/account_tokens.py:35-53 | issuing consumes what is outstanding and adds one token for its lifetime |
| AuthEffects.ConfirmsIff | backend/api/auth.py:421-437 | both confirm endpoints succeed exactly on a valid token for their purpose and otherwise change nothing |
| AuthEffects.VerificationEffect | backend/api/auth.py:432-436 | a verification dates the address now, spends the verification tokens of the user and leaves all else |
| AuthEffects.ResetWrites | backend/api/auth.py:509-521 | a reset sets the password, keeps an earlier verification date or sets it now, spends the reset tokens and revokes the sessions of the user |
| AuthStore.Store.CreateRefreshSession | backend/services/auth_sessions.py:52-68 | adds one active session alone in its family and changes no other row |
| AuthStore.Store.RotateRefreshSession | backend/services/auth_sessions.py:71-121 | reply and new tables equal the rotation of the model in all five outcomes; it succeeds exactly for a known, unrevoked, unexpired session of an active user |
| AuthStore.Store.RevokeActiveOfFamily | backend/services/auth_sessions.py:140-145 | the bulk update revokes exactly the family's active rows |
| AuthStore.Store.RevokeRefreshSession | backend/services/auth_sessions.py:124-146 | logout equals its transaction, without a cookie or a known session too |
| AuthStore.Store.RevokeAllUserSessions | backend/services/auth_sessions.py:149-159 | revokes exactly the user's active rows |
| AuthStore.Store.IssueAccountToken | backend/services/account_tokens.py:29-53 | spends the user's outstanding tokens for the purpose and adds one |
| AuthStore.Store.GetValidAccountToken | backend/services/account_tokens.py:56-82 | accepts exactly the unconsumed, unexpired tokens of that purpose whose user is active |
| AuthStore.Store.ConsumeUserTokens | backend/services/account_tokens.py:85-97 | afterwards no token of the user for the purpose is outstanding; other tokens and tokens already consumed are unchanged |
| AuthStore.Store.ConfirmPasswordReset | backend/api/auth.py:498-521 | the endpoint's in-place updates equal the reset transaction |
| AuthStore.Store.ConfirmEmailVerification | backend/api/auth.py:421-436 | the endpoint's in-place updates equal the verification transaction |
| RefreshClient.AtMostOneRefresh | frontend/app/api.ts:231-282 | in every reachable world, lost refreshes included, at most one refresh is under way, every waiter waits for it, and no request is sent more than twice |
| RefreshClient.ClientNeverReplays | frontend/app/api.ts:231-249 | while no refresh is lost every refresh presents the tail of its family, so the branch that revokes a family is never taken and no other session changes |
| RefreshClient.NeverReplaysIff | backend/api/auth.py:312-335 | from any reachable world the client presents no replaced token in any continuation without a lost refresh if and only if its cookie is unreplaced or about to give way |
| RefreshClient.ReplaysIffLost | backend/api/auth.py:326-334 | after a run without lost refreshes, a move makes a later replay possible if and only if it is a refresh that fails between the commit of its rotation and its response |
| RefreshClient.ReplayEndsFamily | backend/services/auth_sessions.py:88-97 | a replay is refused as a reuse and leaves its family without an active session |
| RefreshClient.MoveCurrentIff | backend/api/auth.py:312-335 | from a current cookie exactly the lost refreshes lead to a stale one |
| RefreshClient.TailRotation | backend/services/auth_sessions.py:84-121 | rotating an unreplaced session, accepted or refused, changes no other session |
| RefreshClient.MoveKeepsOk | frontend/app/api.ts:231-282 | every move of client, server and other parties, failed refreshes included, keeps the single flight and the tokens on their way |
| ApiClient.ApiModule.RefreshApiAccessToken | frontend/app/api.ts:231-237 | a caller joins the promise in the module variable or starts the one fetch |
| ApiClient.ApiModule.OnRefreshResponse | frontend/app/api.ts:238-244 | a grant stores cookie and access token, a refusal drops both, and any other answer drops the access token only |
| ApiClient.ApiModule.Settle | frontend/app/api.ts:245-247 | afterwards no request waits for the settled refresh and only requests that did have changed |
| ApiClient.ApiModule.SendRequest | frontend/app/api.ts:257-267 | one more request, sent once, which may refresh if and only if there is a token and the path is not exempt; the others are unchanged |
| ApiClient.ApiModule.OnResponse | frontend/app/api.ts:268-274 | the request waits for the stored promise if and only if the answer is a 401 and it may refresh, and is over otherwise; the others are unchanged |
| ApiClient.ApiModule.OnRefreshed | frontend/app/api.ts:275-281 | sent once more exactly after a granted refresh, and then it may not refresh again; the others are unchanged |
| ApiClient.ApiModule.Drive | frontend/app/api.ts:231-282 | the module driven through any run beside the server holds at most one refresh, the one in its variable, on which every waiter waits, and sends no request more than twice |
| RefreshRetry.SentTwiceIffGranted | frontend/app/api.ts:251-282 | a request with a token, off the exempt paths, that meets a 401 is sent exactly twice if the refresh it waited for was granted and once otherwise, whatever else happens in between |
| RefreshRetry.RetryHappens | frontend/app/api.ts:231-282 | from any world without a refresh under way and with a working cookie such a request is sent again with a new cookie and access token |
| RefreshRetry.StaysUntil | frontend/app/api.ts:251-282 | over any run a request changes only by its own answer, the refresh it waits for, or its own going on |
| RefreshRetry.RefreshAnswers | backend/api/auth.py:312-335 | what the refresh endpoint answers, by the first reason that applies, and what it changes |
| RefreshRetry.DeliveryEffect | frontend/app/api.ts:238-244 | what each answer does to cookie and access token |
| RateLimit.MemoryAuthRateLimiter.Hit | backend/services/auth_rate_limit.py:44-58 | the pruned list decides as the full log of admitted hits does, records exactly what it admits, and touches no other identifier |
| RateLimit.MemoryAuthRateLimiter.Reset | backend/services/auth_rate_limit.py:60-62 | forgets one identifier's history and no other |
| RateLimit.MemoryAuthRateLimiter.AtMostMax | backend/services/auth_rate_limit.py:44-58 | in every state at most `max_attempts` hits of an identifier since its reset lie in any window (t - W, t] |
| RateLimit.WindowBound | backend/services/auth_rate_limit.py:44-58 | a log whose entries are spaced by windows has at most `max` entries in any window |
| RateLimit.AdmittedFrom | backend/services/auth_rate_limit.py:46-56 | after a refusal a hit is admitted exactly from the moment the oldest recent hit leaves the window |
| RateLimit.RetryAfter | backend/services/auth_rate_limit.py:55-55 | the advertised delay is the wait in whole seconds, at least one |
| RateLimit.RetryAfterIsFloor | backend/services/auth_rate_limit.py:55-55 | there is exactly one such delay, the floor raised to one |
| RateLimit.RetryAfterRange | backend/services/auth_rate_limit.py:55-55 | the delay lies in [1, W] |
| RateLimit.RetryAfterSuffices | backend/services/auth_rate_limit.py:48-55 | waiting the delay is enough exactly when the wait is whole or below a second; one second more always is |
| RateLimit.RetryAfterExactOnIntegers | backend/services/auth_rate_limit.py:48-55 | on a clock of whole seconds a hit is admitted from now + delay on and never earlier |
| RedisRateLimit.WindowBound | backend/services/auth_rate_limit.py:84-94 | at most `max` admissions per key lifetime, so at most twice that in any window |
| RedisRateLimit.RateKey.AtMostTwiceMax | backend/services/auth_rate_limit.py:84-94 | that bound in every state, with expiry commands delayed or lost |
| RedisRateLimit.RateKey.Increment | backend/services/auth_rate_limit.py:85-88 | the pipelined increment counts on or starts a new lifetime, and the history records exactly the admissions |
| RedisRateLimit.RateKey.Expire | backend/services/auth_rate_limit.py:89-91 | the expiry applies to a present key only |
| RedisRateLimit.RateKey.HitOnce | backend/services/auth_rate_limit.py:76-94 | refused exactly when the lifetime's limit is used up, with a wait in [1, W] and always an expiry afterwards |
| RedisRateLimit.WaitEnds | backend/services/auth_rate_limit.py:85-93 | after the advertised wait the key is still there if and only if more than a second was left of it and the fraction was positive and below a half; one second more always outlasts it |
| RedisRateLimit.RateKey.Reset | backend/services/auth_rate_limit.py:98-106 | deletion starts the history over |
| ModelCatalog.ProviderModelCatalog.Lookup | backend/services/model_catalog.py:226-229 | a hit is the last result stored under that key and younger than its lifetime; there is one exactly when it is wanted and the entry is there and live |
| ModelCatalog.ProviderModelCatalog.Purge | backend/services/model_catalog.py:319-323 | leaves exactly the live entries |
| ModelCatalog.ProviderModelCatalog.Evict | backend/services/model_catalog.py:324-329 | leaves the latest-expiring entries, one fewer than the maximum at most; raises exactly when there is no room at all |
| ModelCatalog.ProviderModelCatalog.Store | backend/services/model_catalog.py:311-333 | the cache stays within its maximum and in agreement with the log of all stores |
| ModelCatalog.ProviderModelCatalog.Discover | backend/services/model_catalog.py:218-260 | a wanted live entry is served; otherwise the answer is fresh, names its source truly and is what the next request for the key is served; it raises exactly when it must store and has no room at all |
| ModelCatalog.NothingLiveDropped | backend/services/model_catalog.py:319-329 | with room for the live entries none of them is dropped |
| ModelCatalog.EvictionOrderIff | backend/services/model_catalog.py:324-333 | for every store no dropped live entry outlives anything left, the new entry included, if and only if every dropped entry was stored on a clock no later than the new one |
| ModelCatalog.SequentialEvictionOrder | backend/services/model_catalog.py:226-259 | sequential calls always keep that order |
| ModelCatalog.OverlappingRequests | backend/services/model_catalog.py:226-259 | two overlapping requests for different keys, run on the service: the earlier one stores last and evicts the entry that would outlive its own |
| Csv.ExportReads | frontend/app/lib/run-data.ts:152-163 | every export is, after its byte order mark, a well-formed file |
| Csv.RoundTripIff | frontend/app/lib/run-data.ts:152-163 | reading returns the exported cells, text quoted and nothing else, if and only if there is a row and no row is empty |
| Csv.FileFrame | frontend/app/lib/run-data.ts:161-163 | a file starts with the byte order mark and ends with a line break |
| Csv.ExportDetermines | frontend/app/lib/run-data.ts:152-163 | equal files come from equal tables, cell by cell, up to neutralising |
| Csv.NeutralizedIff | frontend/app/lib/run-data.ts:157-158 | which texts neutralising confuses, and that its result never looks like a formula |
| Csv.NeutralizedReads | frontend/app/lib/run-data.ts:157-158 | exactly the texts that begin with one of the four characters are led by a single quote |
| Csv.FieldDetermines | frontend/app/lib/run-data.ts:153-158 | null, numbers, booleans and texts come back as different fields, null and "" included |
| ResultPages.StrictTotalOrder | backend/api/runs.py:361-380 | all seven sorts are strict and transitive, and total on results with different ids |
| ResultPages.ListingUnique | backend/api/runs.py:361-380 | a result set has one listing in each order |
| ResultPages.DefaultListingReads | backend/api/runs.py:376-380 | the default listing runs by item, variant and id |
| ResultPages.KeyedListingReads | backend/api/runs.py:363-380 | the six other listings run by quality, latency or tokens, in the direction asked for, missing values last and ties by id |
| ResultPages.OrderResults | backend/api/runs.py:361-380 | lists exactly the rows, in order |
| ResultPages.GetPage | backend/api/runs.py:405-426 | a page holds the results of the one listing from the offset on, as many as the limit allows and there are, and says whether more follow |
| ResultPages.FetchAllRunResults | frontend/app/lib/run-data.ts:132-150 | for every page size of at least one the loop stops, never raises, and returns the whole listing |
| ResultPages.ArrivalShifts | frontend/app/lib/run-data.ts:132-150 | a result stored meanwhile shifts the rest by one: the next page repeats a row exactly when it sorts before the offset |

## Left out

- Routing, validation, ownership queries, health checks, metrics counters, tracing, logging and e-mail: plumbing around the modelled steps.
- Deletion of projects, runs and users, and the cascades it starts.
- `started_at`, `finished_at`, `last_used_at` and error texts of runs: written beside the status, read by no modelled decision.
- Isolation finer than atomic commits, committed reads and locked rows; in particular a logout racing an uncommitted rotation.  One clock reading stands for each endpoint transaction.
- Cryptography, token and UUID generation: freshness and injectivity are assumed; rows are identified by their token.
- A second interruption delivered while an attempt writes its terminal state is a crash of the attempt.
- Floating-point rounding and the `Numeric(18,8)` rounding of cost: averages and sums are exact reals.
- The provider's own retries and cost estimation, dataset import, model discovery over HTTP and the normalisation of model names: generators and loaders return anything or fail.
- Lower-casing that changes a text's length or depends on neighbouring characters: `lower` is an idempotent function on characters.
- The result filters, run comparisons, the comparison export and the release audit.
- The sort of variants by name and id before they are summarised: the summaries are stated for any order of variants.
- Which of several equally old cache entries is evicted first: the cache is a map without insertion order, and the contracts hold for every choice.
- UUIDs and dates in the result order are compared as numbers.
- The browser client is one instance whose responses all arrive, error responses included; a second tab sharing the cookie is not part of this model.
- What the session does to an attempt's row between transactions is taken from SQLAlchemy's documented behaviour with `expire_on_commit` off; nothing of it is proved.
- RunWorker.RunAttempt.CommitFinal: requires the stored counter within the stored total, which `RunSafety.ReachableSafe` establishes for every reachable state.
- RunWorker.RunAttempt.CommitEnding: requires the stored counter within the stored total, which `RunSafety.ReachableSafe` establishes for every reachable state.
- ResultPages.FetchAllRunResults: stated for a result set that does not change between requests; `ArrivalShifts` says what a change does.
