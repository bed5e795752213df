# doublangu: verified models of the durable core

The project models the parts of doublangu that must stay right through retries, crashes and
concurrent callers, and proves what they promise.

- `JobModel`, `JobTable`, `JobStore`, `JobInvariants`, `JobRuns`, `JobScenarios` and `Digraph`: the
  durable job scheduler. Rows with leases, attempts, tokens and backoff, a dependency graph, and every
  transaction that writes the table, first as a function on the table, then as a method that updates
  the rows in place. Three of them lie outside `internal/jobs`: the revocation of a worker and the
  requeues of speech and article jobs. `JobRuns` speaks of whole runs. The life of a job goes from
  one owner's requeue to the next: bounded lives, lease fencing, one success per life, dependencies
  at claim, and when exactly the scheduler can get stuck. `JobScenarios` holds the runs that show
  where these bounds end.
- `DictionaryModel`, `DictionaryRuns`, `DictionaryService`: get-or-create of dictionary entries, when
  a start starts a generation, and the publication of generated documents beside the scheduler.
- `RelayModel`, `RelayService`: relay results beside the scheduler, and the loop that waits for one.
- `MediaMachine`, `MediaSafety`, `MediaRuns`, `MediaLoss`, `MediaStore`: the content-addressed
  store. The machine takes one disk or database step at a time, interleaves any number of operations,
  may crash anywhere, and any call may fail, removals included; `MediaStore` holds the operations and
  recovery as the service performs them, each proved to be a run of the machine. `MediaLoss` has the
  one failure that loses bytes.
- `DigestLocks`: the ref-counted lock per digest and the one-shot prepared writes. `MediaLocks` runs
  it beside the media machine and proves that it entitles the machine to one operation per digest.
- `TokenBucket`, `RateLimiter`: the login rate limiter, its promises proved on a token clock and
  carried to whole runs in seconds.
- `ProviderCatalog`: the coalescing last-good model catalog.
- `ByteStrings`, `Base64`, `RunHistory`: keyset pagination of analysis runs.
- `HashParts`, `PipelineOrder`, `PipelineProfile`: canonical hash preimages, the stage order and the
  identity of profiles.

`dafny verify dfyconfig.toml` checks everything.

## Where code and documentation differ

The models follow the code.

- A worker's revocation queues its job again whatever attempts are left
  (`internal/workers/service.go:346`), and the claim query wants attempts left
  (`internal/jobs/jobs.go:318-343`). A job revoked during its last attempt is therefore queued for
  good: no claim takes it and no recovery touches it. `JobRuns.StuckIffAllRevoked` has the exact
  condition, `JobScenarios.RevocationsStrandAJob` a run.
- Succeeded, failed and canceled are terminal in `internal/jobs`, but a speech request puts a failed
  or canceled job, and a succeeded one whose audio is gone, back in the queue with zero attempts
  (`internal/speech/store.go:489-494`), and an article request any finished job
  (`internal/reader/v2_store.go:661-676`). `JobRuns.OverUntilRequeued` has the exact condition and
  `JobRuns.OverForGood` that of a whole run; claims about attempts, successes and dependencies are per
  life. `JobScenarios.SucceedsAgain` is a run with any number of claims and successes,
  `JobScenarios.OverJobReturns` takes any finished job back, a dependency included.
- `CleanupOrphan` says a failure restores the blob before the lease is released
  (`internal/media/media.go:460-463`). That holds if and only if the blob was not moved aside or could
  be put back, which needs the restoring rename and, after a failed commit, the parity query:
  `MediaStore.Media.CleanupOrphan` has the clause, `MediaStore.ParityFailureLeavesBlobAway` an outcome
  where it fails. The bytes then wait in the cleanup artifact for the next recovery.
- A cleanup that can neither use its placeholder nor remove it leaves an empty artifact behind
  (`internal/media/media.go:504-513`, and 561-584 where it is made). A later recovery may take it for
  the blob and delete the true copy: `MediaLoss.LeftoverPlaceholderLosesBytes` is such a run. Nothing
  else loses the bytes of a row (`MediaRuns.BytesOfARowSurvive`), a row can be lost exactly while such
  an artifact is there (`MediaLoss.LostIffLeftover`), and bytes with a reference never are
  (`MediaRuns.ReferencedBytesNeverLost`).
- `AddDependency` (`internal/jobs/jobs.go:259-291`) does not look at job states, so a dependency can be
  added to a job in flight (`JobScenarios.DependencyAddedInFlight`). Claims about dependencies
  therefore speak of the edges at the claim.

One promise rests on the providers rather than on the catalog: a refresh failure marks the catalog
stale (`internal/httpapi/provider_catalog.go:90-97`) if and only if it has a text
(`ProviderCatalog.StaleIffFailedWithMessage`). The interface allows an empty one
(`ProviderCatalog.EmptyMessageReadsFresh`); the errors of this repository's providers start with
their code (`internal/annotator/annotator.go:41-46`, `internal/llmrelay/llmrelay.go:78-86`).

## Model

| member | source | states |
|---|---|---|
| `JobStore.Store.Enqueue` | `internal/jobs/jobs.go:171-194` | An idempotency key names one job: a repeated enqueue returns the stored row and adds nothing; a new row is queued with what the request says and three attempts by default; the refusals are an invalid spec and a colliding id |
| `JobStore.Store.ValidateSpec` | `internal/jobs/jobs.go:848-869` | What a request must have, field by field |
| `JobStore.Store.CheckErrorCode` | `internal/jobs/jobs.go:945-955` | An error code is "v1." and up to 117 lower-case letters, digits, dots, underscores and dashes |
| `JobStore.Store.Ancestors` | `internal/jobs/jobs.go:273-287` | The recursive ancestor query computes exactly the jobs reachable over dependency edges |
| `JobStore.Store.AddDependency` | `internal/jobs/jobs.go:259-291` | Between two existing jobs an edge is refused if and only if the jobs are equal or the dependency already reaches the job; otherwise exactly that edge is added |
| `Digraph.AcyclicAfterEdge` | `internal/jobs/jobs.go:273-287` | Adding an edge to an acyclic graph keeps it acyclic if and only if its head does not already reach its tail, so the refusal test is neither too weak nor too strong |
| `JobStore.Store.FailDependentsOnce` | `internal/jobs/jobs.go:828-846` | One pass of the update, in any row order and seeing or not seeing its own changes, fails only doomed jobs, and reports zero only when none is left |
| `JobStore.Store.ReconcileDependencyFailures` | `internal/jobs/jobs.go:828-846` | The loop ends, and whatever the order, fails exactly the queued jobs that reach a failed or canceled job along queued jobs, with the dependency code, and changes nothing else; afterwards no queued job has a dead dependency and every job it failed has one |
| `JobInvariants.ReconciledTwice` | `internal/jobs/jobs.go:828-846` | After the loop no doomed job is left: a second pass changes nothing |
| `JobInvariants.NoDoomPathLeft` | `internal/jobs/jobs.go:828-846` | After the loop no path of queued jobs leads to a failed or canceled job |
| `JobStore.Store.ClaimableRows` | `internal/jobs/jobs.go:318-343` | The claim query selects, field by field, exactly the queued rows of the target that are due, have attempts left and only succeeded dependencies |
| `JobStore.Store.FirstMatch` | `internal/jobs/jobs.go:344-351` | The scan finds the accepted row of the greatest priority, of those the oldest, of those the smallest id, or proves there is none |
| `JobStore.Store.LeaseFirst` | `internal/jobs/jobs.go:352-390` | A claim leases that row for ninety seconds under a new attempt, owner and token, or reports no work exactly when nothing matches |
| `JobStore.Store.ClaimMatching` | `internal/jobs/jobs.go:302-390` | A claim reconciles, then leases, of the matching claimable jobs, the one of greatest priority, then age, then id; it fails exactly when there is none, and an unknown target or blank owner is refused |
| `JobStore.Store.ClaimMatchingCapability` | `internal/jobs/jobs.go:398-488` | The same among the jobs of one type; for valid input it fails exactly when none is claimable or the worker already holds an active lease of the type |
| `JobInvariants.OneLeasePerLane` | `internal/jobs/jobs.go:398-488` | A capability claim never gives a worker a second active lease of one job type |
| `JobStore.Store.Heartbeat` | `internal/jobs/jobs.go:520-561` | Exactly the stored attempt and token under a live lease extend it by ninety seconds and record the progress; a job that is over is acknowledged, a canceled or failed one with cancel requested; every refusal changes nothing |
| `JobStore.Store.Finish` | `internal/jobs/jobs.go:593-635` | Accepted exactly for the stored attempt and token, a completion only under a live lease or as a repeat; a failure is queued again, due after its backoff, if and only if retry is asked for and attempts are left, and otherwise failed for good, with its code; anything else changes nothing |
| `JobStore.Store.Cancel` | `internal/jobs/jobs.go:666-689` | Cancelling leaves the job over in every case, and succeeds exactly when it ends up canceled; an active attempt keeps its credentials, a queued row loses them |
| `JobStore.Store.CancelOwnerJobs` | `internal/jobs/jobs.go:693-709` | Exactly the unfinished jobs of the owner and type are canceled, nothing else changes, and the count is exact |
| `JobStore.Store.ExpireLeases` | `internal/jobs/jobs.go:718-767` | Exactly the lapsed leases are given up: queued again with backoff while attempts are left, else failed for good; the first failing callback of a job failed for good stops the transaction |
| `JobStore.Store.RecoverExpired` | `internal/jobs/jobs.go:713-769` | All lapsed leases are given up and dependents reconciled, or, when the callback of a job without attempts left fails, nothing at all |
| `JobStore.Store.RecoverExpiredJob` | `internal/jobs/jobs.go:777-826` | The same for one job, with its answer stated exactly; a job without a lapsed lease is left alone |
| `JobStore.Store.VerifyLease` | `internal/jobs/jobs.go:493-518` | An attempt verifies exactly with its own attempt and token and, unless the job succeeded, its owner and, while in flight, a live lease |
| `JobStore.Store.Revoke` | `internal/workers/service.go:338-348` | Revoking a worker puts exactly its leased and running jobs back in the queue, their attempts kept and their credentials cleared |
| `JobStore.Store.EnsureSpeechJob` | `internal/speech/store.go:484-502` | Wanted speech work ends with a job of its key that is not dead, and not succeeded when the audio is gone: requeued from zero attempts, or enqueued; a refused enqueue, exactly as Enqueue refuses, rolls the requeue back |
| `JobStore.Store.RequeueSpeech` | `internal/speech/store.go:488-497` | Its update starts exactly the failed and canceled jobs of the key again, and the succeeded one when the audio is gone, due at once with zero attempts |
| `JobStore.Store.RequeueArticle` | `internal/reader/v2_store.go:661-676` | Exactly a job of the key that is over is queued again, due at once, from zero attempts, with the new payload and input hash |
| `JobInvariants.StepRows` | `internal/jobs/jobs.go:171-846` | Over every writer of the table a row changes only in the listed ways, only an enqueue adds rows, dependencies only grow |
| `JobInvariants.RowChangeValid` | `internal/jobs/jobs.go:848-869` | Every change keeps attempts within max_attempts within 3, the identity of the job and, but for an article request, its payload; one that is over changes only when its owner queues it again |
| `JobInvariants.StepValid` | `internal/jobs/jobs.go:171-869` | Every transaction keeps bounded attempts, one row per idempotency key, existing dependency ends and an acyclic graph |
| `JobInvariants.LifeShrinks` | `internal/jobs/jobs.go:302-390` | Within one life a natural-number measure strictly falls on every claim, requeue and finish; only a completion under a live lease makes a job succeed, only an owner's requeue starts another life |
| `JobInvariants.TokenKept` | `internal/jobs/jobs.go:593-635` | Without a new claim the stored token is kept or cleared, never replaced |
| `JobInvariants.LeaseProtects` | `internal/jobs/jobs.go:744-765` | While a lease is live only its own worker, that worker's revocation or a cancellation changes the row |
| `JobInvariants.LeaseLastsInFull` | `internal/jobs/jobs.go:46` | A claim and an accepted heartbeat each grant ninety seconds from then on |
| `JobInvariants.RetryWaitsItsBackoff` | `internal/jobs/jobs.go:871-879` | A job its worker failed or whose lease ran out is due five seconds after its first and thirty after its second attempt |
| `JobInvariants.ExhaustedOnlyByRevocation` | `internal/workers/service.go:346` | A job becomes queued with all its attempts spent if and only if its worker is revoked during its last attempt |
| `JobInvariants.ExhaustedStays` | `internal/jobs/jobs.go:318-343` | Only a cancellation or a dead dependency ends that |
| `JobInvariants.FrontierExists` | `internal/jobs/jobs.go:318-343` | With failures reconciled, a job queued and none in flight, some queued job has only succeeded dependencies |
| `JobInvariants.SchedulerProgress` | `internal/jobs/jobs.go:318-376` | With a job queued and none in flight some queued job waits for no other, and a claim can ever find work if and only if one of those has attempts left |
| `JobInvariants.ClaimFindsWork` | `internal/jobs/jobs.go:302-390` | On any valid table a claim for the target of such a job, from the end of its backoff on, does lease a job |
| `JobRuns.RunTablesValid` | `internal/jobs/jobs.go:171-869` | The invariant holds in every reachable table |
| `JobRuns.OverUntilRequeued` | `internal/speech/store.go:489-494` | A job that is over changes if and only if a request comes under its key, from an article or from speech, the latter only if the job did not succeed or its audio is gone; it then is queued with zero attempts |
| `JobRuns.OverForGood` | `internal/speech/store.go:489-494` | Over a run succeeded, failed and canceled are kept if and only if no such request comes in between |
| `JobRuns.RowsPersist` | `internal/jobs/jobs.go:593-709` | Rows are never lost; until an owner queues the job again its attempts never fall and a state that is over stays |
| `JobRuns.ClaimsBounded` | `internal/jobs/jobs.go:352-376` | Between two requeues by its owner the attempt counter counts the claims, and they never exceed max_attempts nor three |
| `JobRuns.AllClaimsBounded` | `internal/jobs/jobs.go:352-376` | Over a whole run a job is claimed at most three times per life |
| `JobRuns.LifeBounded` | `internal/jobs/jobs.go:302-390` | In one life claims, returns to the queue and finishes number at most seven |
| `JobRuns.TokenOrigin` | `internal/jobs/jobs.go:352-380` | A stored token hash always comes from the newest claim, whose attempt was in flight ever since while the job is active |
| `JobRuns.LeaseFencing` | `internal/jobs/jobs.go:520-561` | A heartbeat, completion or failure that changes anything carries the newest claim's attempt and token, and touches only that job |
| `JobRuns.StaleTokenChangesNothing` | `internal/jobs/jobs.go:593-635` | A token of an earlier attempt, or of an attempt that was given up, changes no row |
| `JobRuns.OneClaimPerEvent` | `internal/jobs/jobs.go:344-376` | One claim leases one job |
| `JobRuns.SucceedsOnce` | `internal/jobs/jobs.go:593-620` | In each life at most one event makes a job succeed, and it is a completion under the live lease of the newest attempt |
| `JobRuns.DependenciesAtClaim` | `internal/jobs/jobs.go:318-343` | Whatever is in flight or succeeded had at its newest claim only succeeded dependencies, and each stays succeeded until its own owner queues it again |
| `JobRuns.ExhaustedWasRevoked` | `internal/workers/service.go:346` | Over any run a queued job with all attempts spent had its worker revoked during its last attempt, and nothing happened to it since |
| `JobRuns.RevokedIsExhausted` | `internal/workers/service.go:346` | And such a revocation always leaves one |
| `JobRuns.StuckIffAllRevoked` | `internal/jobs/jobs.go:318-376` | In any reachable table with a job queued and none in flight, no claim can ever find work if and only if every queued job that waits for no other was revoked on its last attempt |
| `JobScenarios.RevocationsStrandAJob` | `internal/workers/service.go:346` | For any job and any workers, the same or not, a run that ends in such a table |
| `JobScenarios.OverJobReturns` | `internal/speech/store.go:489-494` | Any run that has come to a finished job can go on by queueing it again, and nothing else changes: a succeeded dependency does not stay succeeded under a job in flight |
| `JobScenarios.DependencyAddedInFlight` | `internal/jobs/jobs.go:259-291` | Any run with a job in flight can go on by giving it a dependency, succeeded or not, that does not depend on it; the job stays in flight |
| `JobScenarios.SucceedsAgain` | `internal/speech/store.go:489-494` | For any job and any number n, a run in which it is claimed n times and succeeds n times |
| `DictionaryService.Service.EnsureEntry` | `internal/dictionary/store.go:303-316` | Get-or-create returns the entry of a key as it is, or inserts one blank placeholder when there is none |
| `DictionaryService.Service.SetLastJob` | `internal/dictionary/store.go:325-346` | The entry is moved to a new job if and only if it still points where the caller believed |
| `DictionaryService.Service.EnqueueNext` | `internal/dictionary/service.go:408-430` | The next job and the pointer to it are written together or not at all |
| `DictionaryService.Service.Start` | `internal/dictionary/service.go:334-445` | A start starts if and only if the request is sensible and the entry of its key is open to it, or there is none yet; it then leaves one queued single-attempt job and the pointer to it, and otherwise nothing |
| `DictionaryService.Service.StartTransaction` | `internal/dictionary/service.go:371-440` | Its transaction, with the checks repeated and everything rolled back on a refusal, is the transaction function |
| `DictionaryService.Service.Publish` | `internal/dictionary/runner.go:275-289` | A publication publishes if and only if its worker still runs, the entry points at its job under the live lease, and the history is written; document, job success and history commit together, and otherwise entries and jobs stay as they were |
| `DictionaryModel.StartKeeps` | `internal/dictionary/service.go:334-445` | A start keeps one entry per key and at most one unfinished job per entry |
| `DictionaryModel.StartTold` | `internal/dictionary/service.go:371-440` | The exact condition of a start, on the fields of the request, the entry and its last job, and the whole new state |
| `DictionaryModel.SchedulerKeeps` | `internal/jobs/jobs.go:171-846` | Anything the other writers of the job table do keeps them too and changes no entry |
| `DictionaryModel.PublishKeeps` | `internal/dictionary/runner.go:275-289` | So does a publication, whether it commits or not |
| `DictionaryModel.PublishTold` | `internal/dictionary/runner.go:275-289` | The exact condition of a publication and the whole new state |
| `DictionaryModel.ClaimedJobPublishes` | `internal/dictionary/runner.go:275-289` | Whoever claims a generation job can publish it for as long as the lease lasts |
| `DictionaryModel.PublishNeedsLiveLease` | `internal/dictionary/store.go:352-370` | A publication that changes anything succeeds the entry's current last job under its live lease |
| `DictionaryModel.DocumentStep` | `internal/dictionary/store.go:352-370` | A document changes only in the transaction that makes the entry's current last job succeed under a live lease |
| `DictionaryModel.NextKeeps` | `internal/dictionary/service.go:334-445` | Every transaction keeps the whole invariant of entries, jobs, workers and documents |
| `DictionaryModel.EnvelopeTellsTheTruth` | `internal/dictionary/service.go:226-273` | The status is ready exactly when a generation succeeded, else queued, generating or failed as the last job is, and the generation field is the last job's state whether or not an older document is shown |
| `DictionaryRuns.StartsConverge` | `internal/dictionary/service.go:334-445` | Under any interleaving each key has one entry, and every job of an entry other than its last one is over, so at most one is ever active |
| `DictionaryRuns.DocumentIsLatestPublication` | `internal/dictionary/store.go:352-370` | An entry is ready exactly when one of its jobs succeeded, and shows the latest publication through every failed, canceled or expired regeneration |
| `DictionaryRuns.EntriesPersist` | `internal/dictionary/store.go:303-370` | Entries are never lost and stay ready |
| `RelayService.Service.Enqueue` | `internal/llmrelay/service.go:128-143` | One input hash is one job; a new job is one the completion transaction recognises, for the Mac, with the payload; an empty or oversized payload is refused, and nothing besides blanks and a colliding id |
| `RelayService.Service.Complete` | `internal/llmrelay/service.go:238-302` | A result is accepted if and only if it is the stored one or the first, for a relay job under its live lease or repeated; what is stored is the worker's canonical result, together with the job's success, and a refusal changes nothing |
| `RelayModel.NextKeeps` | `internal/llmrelay/service.go:238-302` | Every transaction keeps: a result row exists if and only if its relay job succeeded |
| `RelayModel.NextPersists` | `internal/llmrelay/service.go:238-302` | Nothing later touches an accepted result or a relay job that is over |
| `RelayModel.RepeatedCompletion` | `internal/llmrelay/service.go:262-300` | Once a result is accepted an identical repeat under its lease is accepted, a different one is called nondeterministic, and neither has an effect |
| `RelayModel.ResultsOverRuns` | `internal/llmrelay/service.go:238-302` | Over any run the equivalence holds and the first accepted result never changes |
| `RelayService.Service.CancelChild` | `internal/llmrelay/service.go:182-210` | Cancelling an unfinished child leaves it canceled with the relay's code, and no other job changes; if the cancellation itself fails its error is dropped and nothing changes |
| `RelayService.Service.RecoverChild` | `internal/llmrelay/service.go:206-209` | After a turn on a job in flight its lease is not lapsed |
| `RelayService.Service.Poll` | `internal/llmrelay/service.go:172-214` | A turn ends exactly as the state it read, the parent, the workers' presence and the failing calls say: a queued child is given up if and only if no worker is there; the child is left unfinished only on a failing query or a failed, dropped cancellation |
| `RelayService.Service.Wait` | `internal/llmrelay/service.go:172-214` | Every turn before the last waited on and the last ended as Poll says, so it gives up as unavailable only after a poll without a worker and as canceled exactly after one with the parent done; every other exit leaves the child over or names a database error; a delivered result is the stored one |
| `MediaSafety.AdvanceSafe` | `internal/media/media.go:228-584` | Every step of every operation, whatever fails, keeps its digest safe: a reference has its row and bytes, a row has its file or an artifact |
| `MediaSafety.WriteStepSafe` | `internal/media/media.go:228-273` | That for the steps of a write up to its rename |
| `MediaSafety.CommitStepSafe` | `internal/media/media.go:275-292` | For the commit, failed and ambiguous commits included |
| `MediaSafety.MoveAsideStepSafe` | `internal/media/media.go:464-517` | For moving an unreferenced blob aside, a placeholder that stays included |
| `MediaSafety.DeleteStepSafe` | `internal/media/media.go:519-559` | For deleting its row and discarding or restoring its bytes |
| `MediaSafety.MoveAsideStepTrue` | `internal/media/media.go:493-515` | Moving aside keeps the files of its digest true if and only if it does not leave an empty placeholder behind |
| `MediaSafety.AdvanceTrue` | `internal/media/media.go:228-584` | Every other step of every operation keeps them true |
| `MediaSafety.AdvanceTouches` | `internal/media/media.go:228-584` | A step touches no file, row or reference of another digest |
| `MediaRuns.RecoverTempKeeps` | `internal/media/media.go:638-661` | Recovering one artifact keeps its digest consistent and, unless a problem is reported, removes the artifact |
| `MediaRuns.NextKeeps` | `internal/media/media.go:171-661` | Every event, crashes, failing removals and partial recoveries included, keeps the invariant of the whole store |
| `MediaRuns.NextTrue` | `internal/media/media.go:171-661` | Only leaving a placeholder behind can make a file of the digest false |
| `MediaRuns.RunValid` | `internal/media/media.go:171-661` | The invariant holds in every reachable state |
| `MediaRuns.ReferencedBytesNeverLost` | `internal/media/media.go:228-292` | At every instant of every run a committed reference has its row and its exact bytes in blobs, through failed renames and removals, ambiguous commits, duplicate writers, orphan cleanup and crashes |
| `MediaRuns.BytesOfARowSurvive` | `internal/media/media.go:353-364` | Of a digest no placeholder was left behind for: its file never holds other bytes than its name says, and while a row's file is away at least one artifact exists and all hold the true bytes |
| `MediaRuns.RecoveryRestoresFiles` | `internal/media/media.go:589-636` | Whenever recovery reports success there is a file in blobs exactly for each committed row and no temp artifact, whatever failed before; and its bytes are true wherever no placeholder was left behind |
| `MediaRuns.RecoveryRestoresExactly` | `internal/media/media.go:589-636` | After a run that left no placeholder behind a successful recovery leaves exactly the rows' files with bytes that hash to their names |
| `MediaLoss.LostIffLeftover` | `internal/media/media.go:648-659` | The bytes of an unreferenced row nobody works on can be lost by what happens next if and only if a false artifact of it is there |
| `MediaLoss.LeftoverPlaceholderLosesBytes` | `internal/media/media.go:504-513` | A run from the empty store with one failed removal of a placeholder: recovery reports success and the bytes of a committed row are gone |
| `MediaStore.Media.PrepareWrite` | `internal/media/media.go:171-214` | A prepare is one run of the machine for any outcome of its calls: it succeeds exactly when the write and its check do, and the disk afterwards is stated exactly in every case |
| `MediaStore.Media.CommitPrepared` | `internal/media/media.go:228-292` | A commit is one run of the machine for any outcome of its calls; success, the references, the rows and the files afterwards are stated exactly, a published file going only when the commit is known to be lost |
| `MediaStore.Media.RestoreAfterGenericCommitFailure` | `internal/media/media.go:337-351` | After a failed commit the published file goes exactly when the row is known not to be there |
| `MediaStore.Media.AbandonWrite` | `internal/media/media.go:313-322` | Abandoning is the machine's run that drops the temp file, and succeeds exactly when it is gone |
| `MediaStore.Media.CleanupOrphan` | `internal/media/media.go:464-559` | A cleanup is one run of the machine for any outcome of its calls; success, rows and files are stated exactly: success means that the row of an unreferenced digest and its file, and nothing else, are gone, and a row that stays has its file away if and only if the file was moved and could not be put back |
| `MediaStore.Media.SetAside` | `internal/media/media.go:493-517` | The first half moves the file aside, or leaves everything but perhaps an empty placeholder |
| `MediaStore.ParityFailureLeavesBlobAway` | `internal/media/media.go:460-463` | One such outcome: the commit fails without effect and so does the parity query, and the lease is released with the row there and the file away |
| `MediaStore.Media.DeleteAside` | `internal/media/media.go:519-559` | The second half of a cleanup is the machine's last four steps; the bytes vanish once the row is known to be gone, go back when it is known to stay, and stay aside otherwise |
| `MediaStore.Media.ResolveCommit` | `internal/media/media.go:530-551` | After a failed commit the bytes are discarded or put back as the rows say, which is the machine's last two steps |
| `MediaStore.OperationKeeps` | `internal/media/media.go:228-584` | An operation that ran to its end leaves every digest safe |
| `MediaStore.CommitRan` | `internal/media/media.go:228-322` | What a commit or an abandoned write does is, in any serving world, at most seven moves of the machine |
| `MediaStore.CleanupRan` | `internal/media/media.go:464-559` | What a cleanup does is a start and at most seven moves |
| `MediaStore.PrepareRan` | `internal/media/media.go:171-214` | What a prepare does is, in any serving world, a start and at most three moves of the machine |
| `MediaStore.Media.RecoverArtifact` | `internal/media/media.go:638-661` | Removes or restores one artifact as the machine's recovery does |
| `MediaStore.Media.RecoverTemps` | `internal/media/media.go:594-613` | The first loop is the machine's recovery of every temp artifact |
| `MediaStore.Media.RecoverBlobs` | `internal/media/media.go:615-635` | The second loop is its recovery of every blob file |
| `MediaStore.Media.Recover` | `internal/media/media.go:589-636` | Recovery is one run of the machine; success means the files are exactly the rows, true files stay true, and when no call fails it does succeed |
| `DigestLocks.Locks.Register` | `internal/media/media.go:713-720` | The first critical section finds or makes the lock of a digest and counts the caller |
| `DigestLocks.Locks.TryAcquire` | `internal/media/media.go:721-725` | A waiter gets through exactly when the mutex is free |
| `DigestLocks.Locks.GiveBack` | `internal/media/media.go:68-73` | The last critical section gives the count back and deletes the entry at zero |
| `DigestLocks.Locks.BeginWrite` | `internal/media/media.go:120-139` | A write is taken for finalization exactly once; later and foreign attempts are refused and change nothing |
| `DigestLocks.NextKeeps` | `internal/media/media.go:65-75` | Every critical section keeps exact counts, one lock per digest and owners that hold |
| `DigestLocks.MutualExclusion` | `internal/media/media.go:709-726` | No two leases of one digest are held at once, although entries are deleted and recreated |
| `DigestLocks.EntryIffRegistered` | `internal/media/media.go:65-75` | An entry exists exactly while a lease is registered on its digest, and its count is their number |
| `DigestLocks.EmptyAtRest` | `internal/media/media.go:65-75` | When every lease is released the map is empty |
| `DigestLocks.WaiterProceeds` | `internal/media/media.go:721-725` | A waiter can pass exactly when nobody holds its digest |
| `DigestLocks.HolderReleases` | `internal/media/media.go:65-75` | A holder can unlock exactly when its writes are finalized, and an open write can always be begun or finished |
| `DigestLocks.UnlockThenUnregister` | `internal/media/media.go:65-75` | Unlocking frees the mutex and can always be followed by giving the count back |
| `DigestLocks.OpenWriteExcludesOthers` | `internal/media/media.go:120-147` | An unfinalized prepared write holds its digest's lease, so no two share a digest |
| `DigestLocks.OneShot` | `internal/media/media.go:65-75` | Over any run each write is begun and finished at most once and each lease unlocked and released at most once |
| `MediaLocks.NextCovered` | `internal/media/media.go:709-726` | Beside the locks, every operation of the machine holds its digest's lease from its start to its end |
| `MediaLocks.HoldingMeansFree` | `internal/media/media.go:709-726` | Over any run of both, the holder of a digest's lease finds no operation on it, so the machine's guard never stops what the locks let through |
| `MediaLocks.RunningMeansHeld` | `internal/media/media.go:709-726` | While an operation runs nobody else holds its digest's lease |
| `TokenBucket.EvictionKeepsLevels` | `internal/auth/ratelimit.go:48-55` | Evicting idle buckets changes no bucket's level at any later time |
| `TokenBucket.NextLevel` | `internal/auth/ratelimit.go:57-75` | A call spends from its own key's level only |
| `TokenBucket.EvictionIsInvisible` | `internal/auth/ratelimit.go:43-76` | Over any non-decreasing call times every answer equals that of a limiter that never evicts |
| `TokenBucket.Budget` | `internal/auth/ratelimit.go:63-75` | Calls allowed in a window plus tokens left never exceed a full bucket plus the refill |
| `TokenBucket.WindowBound` | `internal/auth/ratelimit.go:24-25` | In any window of T ticks a key gets at most rate + T calls |
| `TokenBucket.RefusedIffOverBound` | `internal/auth/ratelimit.go:43-76` | A call is refused if and only if granting it would break that bound on some window |
| `RateLimiter.Buckets.constructor` | `internal/auth/ratelimit.go:26-36` | A rate below one is raised to one and the limiter starts empty |
| `RateLimiter.Buckets.Evict` | `internal/auth/ratelimit.go:48-55` | After ten minutes exactly the buckets idle for more than two intervals go, the others stay as they are |
| `RateLimiter.Buckets.AllowAt` | `internal/auth/ratelimit.go:43-76` | A call evicts, refills up to the rate, and is allowed exactly with a whole token, which it spends |
| `RateLimiter.Buckets.Take` | `internal/auth/ratelimit.go:57-75` | Refills the key's bucket up to the rate and spends a token exactly when there is a whole one |
| `RateLimiter.CallTicks` | `internal/auth/ratelimit.go:63-75` | One call in seconds is one call of the token bucket read off the token clock, the zero last-seen time of a new bucket included |
| `RateLimiter.HeldTicks` | `internal/auth/ratelimit.go:43-76` | Over any run in seconds the limiter holds what the token bucket holds on the token clock |
| `RateLimiter.CountTicks` | `internal/auth/ratelimit.go:43-76` | And allows exactly the calls it allows |
| `RateLimiter.SecondsBound` | `internal/auth/ratelimit.go:24-25` | In any run of the limiter a window of T seconds lets at most rate + T * rate / interval calls of a key through |
| `RateLimiter.SecondsRefusedIffOver` | `internal/auth/ratelimit.go:43-76` | It refuses a call if and only if granting it would break that bound on some window |
| `RateLimiter.SecondsEvictionIsInvisible` | `internal/auth/ratelimit.go:48-55` | Every answer of the run equals that of a limiter that never evicts |
| `ProviderCatalog.Service.Cached` | `internal/httpapi/provider_catalog.go:125-139` | A read is served without a provider call exactly when it is not forced and the last attempt is inside the window, and it serves what the entry says |
| `ProviderCatalog.Service.JoinRefresh` | `internal/httpapi/provider_catalog.go:148-159` | A refresh is started exactly when none of that provider is running; every other caller joins it |
| `ProviderCatalog.Service.StoreRefresh` | `internal/httpapi/provider_catalog.go:198-211` | A success replaces models, time and error; a failure keeps last-good models and their time and records the error and the attempt |
| `ProviderCatalog.Service.FinishRefresh` | `internal/httpapi/provider_catalog.go:174-193` | The outcome is stored, the marker cleared and the waiters released in one step |
| `ProviderCatalog.NextKeeps` | `internal/httpapi/provider_catalog.go:148-211` | Every critical section keeps the invariant |
| `ProviderCatalog.OneCallPerProvider` | `internal/httpapi/provider_catalog.go:141-159` | For any number of waiters, some of them gone, at most one ListModels call of a provider runs at a time |
| `ProviderCatalog.WokenWaiterFindsEntry` | `internal/httpapi/provider_catalog.go:215-224` | A completed waiter always finds its provider's entry |
| `ProviderCatalog.CompletionWakes` | `internal/httpapi/provider_catalog.go:174-224` | A waiter wakes exactly once its refresh is done, and that refresh's outcome is then the latest of its provider |
| `ProviderCatalog.ResultTellsHistory` | `internal/httpapi/provider_catalog.go:90-97` | The models read are those of the latest successful refresh and the error is that of the latest refresh |
| `ProviderCatalog.StaleIffFailedWithMessage` | `internal/httpapi/provider_catalog.go:195-240` | A snapshot is stale if and only if the latest refresh failed with a nonempty message |
| `ProviderCatalog.EmptyMessageReadsFresh` | `internal/httpapi/provider_catalog.go:195-240` | A failure without a text, read as a fresh catalog |
| `ProviderCatalog.CommitsFollowStarts` | `internal/httpapi/provider_catalog.go:184-188` | An older refresh never overwrites a newer one |
| `Base64.DecodeInvertsEncode` | `internal/analysis/history.go:631-636` | Unpadded base64url decoding inverts encoding (section 5 of RFC 4648) |
| `Base64.EncodeExamples` | `internal/analysis/history.go:631-636` | The alphabet and the grouping themselves, by example |
| `RunHistory.CursorRoundTrip` | `internal/analysis/history.go:631-655` | A cursor decodes to the pair it was made from exactly when the decoder admits that pair; any other pair makes a cursor that is refused |
| `RunHistory.DecodedIsEncodable` | `internal/analysis/history.go:638-655` | Whatever text decodes, it decodes to an admissible pair |
| `RunHistory.SortedIsSorted` | `internal/analysis/history.go:458-459` | The listing is strictly descending in (started_at, id) and holds exactly the selected runs |
| `RunHistory.NewestFirst` | `internal/analysis/history.go:458-459` | Of two runs of a listing the earlier has the later start, or the same start and the greater id |
| `ByteStrings.BeforeIsLexicographic` | `internal/analysis/history.go:458-459` | Texts compare by the first byte that differs |
| `RunHistory.SortedUnique` | `internal/analysis/history.go:458-459` | Only one sequence lists a set of runs in that order |
| `RunHistory.TakeNewest` | `internal/analysis/history.go:458-475` | ORDER BY with LIMIT yields a prefix of the listing |
| `RunHistory.PageTold` | `internal/analysis/history.go:415-485` | A page is refused exactly for an unknown operation, a limit over 50 or a bad cursor, holds at most the limit, 20 by default, only runs of the article and operation, and all of them when it is the only page |
| `RunHistory.ListRunsFiltered` | `internal/analysis/history.go:415-485` | A page is the next limit rows past the cursor, with a next cursor exactly when rows remain; an unknown operation, a limit over 50 and a bad cursor are refused |
| `RunHistory.ResumedPage` | `internal/analysis/history.go:439-446` | Resuming from a cursor continues the listing as it was at the start, whatever newer runs came since |
| `RunHistory.FollowCursors` | `internal/analysis/history.go:479-483` | Following next_cursor ends, and the pages together are exactly the filtered runs in order, each once, although newer runs are inserted between pages |
| `HashParts.LengthBytes` | `internal/pipeline/types.go:347-350` | The eight length bytes are the big-endian length |
| `HashParts.Hash` | `internal/pipeline/types.go:342-355` | The bytes fed to the hash are the canonical preimage |
| `HashParts.FramesInjective` | `internal/pipeline/types.go:346-353` | The frames determine the whole list of parts |
| `HashParts.PreimageInjective` | `internal/pipeline/types.go:342-355` | Two preimages are equal if and only if the zero-free domains and all parts are |
| `HashParts.PreimageLayout` | `internal/pipeline/types.go:342-355` | The layout itself, by example |
| `HashParts.ZeroInDomainCollides` | `internal/pipeline/types.go:344-345` | The zero byte behind the domain needs zero-free domains: two inputs that collide without that |
| `HashParts.PromptVersionInjective` | `internal/pipeline/types.go:121-125` | An effective prompt version determines operation, generation hash, correction hash and envelope |
| `PipelineOrder.StageOrder` | `internal/pipeline/types.go:165-180` | The walk over the registry decides the order below |
| `PipelineOrder.LessMeans` | `internal/pipeline/types.go:165-180` | The stage met first in the registry comes first, registered ones before all others, those by their bytes |
| `PipelineOrder.LessIsTotal` | `internal/pipeline/types.go:165-180` | Any two different stages are ordered |
| `PipelineOrder.LessIsStrict` | `internal/pipeline/types.go:165-180` | The order is irreflexive and asymmetric |
| `PipelineOrder.LessIsTransitive` | `internal/pipeline/types.go:165-180` | The order is transitive across registered and unregistered stages |
| `PipelineOrder.SortBindings` | `internal/pipeline/types.go:286-297` | Sorting copies, sorts and refuses the first repeated stage |
| `PipelineOrder.SortBindingsSorts` | `internal/pipeline/types.go:284-297` | A sorted copy is strictly ordered and a permutation of its input |
| `PipelineOrder.SortRefusesRepeats` | `internal/pipeline/types.go:284-297` | Sorting refuses if and only if a stage is named twice, and names the first such stage in the order |
| `PipelineOrder.SortForgetsOrder` | `internal/pipeline/types.go:284-297` | The result, and the stage named by a refusal, are the same for every permutation of the input |
| `PipelineProfile.ClimbingFills` | `internal/pipeline/types.go:213-238` | As many registered stages as the registry has, in strict order, are the registry |
| `PipelineProfile.ValidateBinding` | `internal/pipeline/types.go:252-282` | What a binding must have, field by field |
| `PipelineProfile.ValidatePrompt` | `internal/pipeline/types.go:128-148` | What a prompt snapshot must have, field by field |
| `PipelineProfile.ValidateBindings` | `internal/pipeline/types.go:216-233` | The loop accepts exactly the bindings that are registered, strictly ordered and complete |
| `PipelineProfile.Validate` | `internal/pipeline/types.go:206-247` | Validation succeeds if and only if the bindings are the registered stages once each in order and every part is complete; its last check never fails |
| `PipelineProfile.SnapshotHash` | `internal/pipeline/types.go:316-340` | The hash of a profile is that of its sorted, compacted and valid normal form |
| `PipelineProfile.HashedIffComplete` | `internal/pipeline/types.go:314-340` | A profile has a hash if and only if it names every registered stage once, in any order, and every part is complete |
| `PipelineProfile.SnapshotHashForgetsOrder` | `internal/pipeline/types.go:314-322` | No permutation of the bindings changes the hash or the refusal |
| `PipelineProfile.SnapshotHashForgetsSpacing` | `internal/pipeline/types.go:323-331` | Options that compact alike change neither the hash nor the refusal |
| `PipelineProfile.SnapshotHashIsIdentity` | `internal/pipeline/types.go:314-340` | Two profiles share a hash if and only if their normal forms have the same encoding |
| `PipelineProfile.DomainsSeparate` | `internal/pipeline/types.go:30-31` | Profile, options and prompt identities never coincide |

## Left out

- RelayService.Service.Wait: runs for a given number of polls; that the real loop ends is liveness of the workers.
- DictionaryService.Service.Start: begins with its transaction; the same checks made before it on an earlier read (internal/dictionary/service.go:346-354), and a missing provider or invalid input, can only end the request sooner without a start.
- RelayService.Service.Interference: stands for whatever other parties do; only its contract matters.
- RunHistory.ListRunsFiltered: carries the columns the query selects and orders by; the summary columns and the join that adds the article title are left out.
- DigestLocks.Locks.TryAcquire: is one attempt at the mutex; a caller that fails stays waiting.
- MediaStore.Media.PrepareWrite: takes the partial bytes of a failing write as a parameter; sync and close errors count as write errors.
- The scheduler reads the clock more than once inside one operation; each operation of the model has a single time, and times do not decrease over a run.
- HTTP handlers, authentication, configuration, provider transports, prompts, the reader and speech packages, the web and macOS clients.
- SQL and transactions: each transaction is one atomic step on maps and sets, with foreign keys as invariants; a commit error is modelled only in the media store, where the code reacts to it.
- The two-statement retry and terminal-recovery SQL around a job is one row update; the terminal-recovery callback is only whether it fails.
- Reading jobs (Get, GetByIdempotencyKey, GetActiveOwnerJobTx) and deleting jobs, which no production code does.
- Around the writers of the job table outside internal/jobs: the speech_worker row of a revocation, the render row of a speech request (reduced to whether its audio is gone), the article row and the choice between requeue and new job of an analysis request. A requeue by key never names a dictionary or relay job, because the keys those requests build never do.
- Relay payloads and results: building and decoding them, byte limits on results and the availability query are left out; sizes of payloads are counted in characters.
- JSON: whether a payload parses, compacts or validates is a parameter; fields of results are opaque text, and ailocals_result_sha256 (internal/workers/ailocals.go:659) is not carried.
- SHA-256, ULIDs and random tokens: hashes are injective constructors; ids and claim tokens that a run draws are fresh. A 32-byte token hash compared in constant time is plain equality.
- Text is compared by code points or bytes; Trim in ByteStrings knows ASCII white space only. The profile-name rule and the two timestamp layouts of time.Parse are predicate parameters.
- Floating point: the rate limiter computes over reals, with interval > 0 and a clock at or after the zero time; Go's saturation of durations is not modelled.
- The media store takes renames and writes to become durable in program order, and temp names to be fresh, as os.CreateTemp draws them. Rename fails only when told to or when its source is missing. What a failing prepare leaves is one choice of bytes, whichever of its calls failed.
- After a crash only recovery runs until it reports success, because a recovery error aborts start-up (cmd/doublangu-server/main.go:132-140). Unrecognised names under temp and blobs, sizes and MIME types are ignored.
- restoreAfterCommitFailure (internal/media/media.go:373) has no production caller and is not modelled.
- Locks: blocking is a step that is not enabled; fairness, and the second caller of sync.Once waiting for the first, are not modelled.
- The sort inside SortBindings is an insertion sort, since sort.SliceStable is library code; the order it yields is proved to be the only one.
- Deleting analysis runs between two pages of a listing; runs are only added.
- Stage contracts, the registry and option codecs are parameters, so the pipeline results hold for every registry of distinct stages.
