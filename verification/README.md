# Verified model of the AI syllabus assistant's training and generation core

The application answers students' questions about a course from a fine-tuned
model. A professor requests a model; the backend queues a training run; a
worker on the GPU cluster claims it, fetches the prepared data, submits one
job and reports it; the job reports how it ended; a version is registered,
published and served. In class, generation can be moved to a cluster GPU, and
a watchdog brings it back when the GPU goes away.

This project models that core in Dafny and proves what it is for: one
outstanding run per course, one job per run, no report lost, only the judged
GPU session ended, students served the one active version.

| module | what it models |
|---|---|
| `TrainingDatabase`, `TrainingTransactions`, `TrainingDatabaseLaws` | run and request rows, every transaction that writes them, what each answers and leaves, and what their histories keep |
| `ClaimLocking` | the claim with its row lock in view, refined to one-at-a-time claims |
| `ModelRegistry` | registration, publication and the version students are served |
| `TrainingWorker`, `TrainingWorkerSafety`, `AnotherJob`, `JobIds` | the workers, their local records and the jobs they start; when a run can get another, and where job ids come from |
| `TrainingWorkerRun`, `SubmissionRecords` | one invocation of the worker, step by step, and what its records say was reported |
| `PendingReports`, `PendingRaces`, `ReportAnswers` | reports persisted, sent and cleared, alone and all at once, and the queue's answers to them |
| `ModeFile`, `FailbackWatchdog` | the generation mode file, its writers, and the watchdog |
| `GenerationMode`, `ModeListeners` | the backend's cache of that file, and who is told of a change |
| `HeldOutOverlap`, `TrainingPlan` | the held-out overlap verdict; step budget, smoke subset and length policy |
| `Invitations`, `DatasetPinning` | single-use invitations, pinned data |
| `Snapshot`, `SnapshotRows` | the all-or-nothing import, and its rows by path |
| `FactCache`, `FactFingerprint` | the shared inventory build, and what its fingerprint identifies |

State machines are total: an action that cannot happen where it occurs changes
nothing, and theorems quantify over every list of actions. Foreign calls
(network, launcher, clock, scheduler) answer arbitrarily. Where the source
updates rows, files or dictionaries in place the model is a class with the
same fields, and its methods are proved against the functions the theorems are
about, or shown to be runs of the state machine (`...IsARun`). Times are whole microseconds, text is as it is after the source's
trimming, and fractions are exact.

Check everything with `dafny verify dfyconfig.toml`.

## Where the code does less than its documentation says

Each of these has a lemma with the failing case, named first, and one with the
exact condition under which the code keeps its promise, named after it.

- A retired run is protected only while the request points at its replacement.
  Opening a new request clears the pointer, and a failure report still on its
  way then fails that new request (`RetiredRunTakesAFreshRequest`,
  `LateFailureMovesRequestIff`).
- A completion delivered again after its version was activated takes that
  version offline (`RedeliveredCompletionTakesVersionOffline`,
  `RegistrationChangesServing`).
- A comment in `record_completion` (backend/app/training_queue_routes.py,
  lines 1069-1072) says a completion stays visible when registration fails;
  the transaction rolls back (`CompletionLostWithItsRegistration`,
  `CompletionRecordedIff`).
- A run can get a second job in more ways than a crash after the launcher: a
  launcher called on an outlived lease, a lease outlived before the job is
  recorded, a job whose id was not printed, a late hand-back, a late failure
  report (the six `...Duplicates` lemmas). Without any of these events it gets
  one at most (`AtMostOneJob`), and exactly when its row, its record and the
  workers leave another open is `AnotherJobIff`, `FurtherJobIff`.
- A run released after its submission was recorded is queued with a job id,
  and no worker can ever take it; released without a reason it cannot be
  retried either (`StuckRunIsReachable`, `ReleasingASubmittedRunSticksIt`,
  `MovableInTimeIff`).
- Clearing a sent report can remove a newer one under the same key
  (`LaterReportCanBeLost`, `LosesIffClobbers`).
- The mode cache stays wrong after one failed read, and after an old file
  returns with its old stat key while a call is under way (`FailedReadSticks`,
  `ReturningFileCanStayWrong`; `DisagreesIffBroken`, `AgreesThroughoutIff`).
- Listeners can be told of a later change of mode before an earlier one, and
  be left with the wrong one (`LaterChangeCanBeHeardFirst`; `HeardInOrderIff`,
  `DeliveriesChainIff`).
- A failback can have more than three warm-ups when state writes fail
  (`UncountedWarmups`; `AnyNumberOfRuns` bounds them by those writes).
- The warm-up retry delay is up to a second short, and so is the window in
  which a failed check counts (`RetryDelay`, `WindowCloses`, both exact).
- A second job of a run that records itself passes for reported
  (`SecondJobPassesForReported`, `ReportedWasSettled`).
- A completion the backend cannot read stays pending for good
  (`EveryAnswerSettles`, exact).
- A failed `start` does not put back an earlier GPU text while the lock is
  busy (`Store.Start`, exact).
- An invitation is redeemed after its deadline by a request that arrived
  before it (`ArrivedInTimeIsRedeemedLate`, `OpensAnotherIff`).
- The index fingerprint does not determine the chunks, whatever the hash
  (`EvidenceIsAmbiguous`; `IdentifiedIff`, `EvidenceIsInjective`).
- A failed build can be blamed on its successor
  (`LateCallbackBlamesTheNewBuild`, `NeverBlamedIff`).

## Model

| member | source | states |
|---|---|---|
| `TrainingDatabase.ChooseNext` | backend/app/db_training_runs.py:110-120 | The claim selects nothing exactly when no wanted, unlocked row is claimable, and otherwise an unlocked claimable row least by enqueue time and then run id among all of them. |
| `TrainingDatabase.OldestExists` | backend/app/db_training_runs.py:587-598 | Every non-empty set of rows has a least one in the claim order, so the selection is never stuck. |
| `TrainingDatabase.TrainingRuns.ClaimNextTrainingRun` | backend/app/db_training_runs.py:554-622 | Choose and stamp: the chosen row alone changes, to claimed with all three lease columns and one more attempt; with nothing to choose the table is unchanged. |
| `TrainingDatabase.TrainingRuns.EnqueueTrainingRun` | backend/app/db_training_runs.py:386-464 | A run is inserted exactly when its course has no unfinished run (and its key is new); otherwise the table is unchanged. |
| `TrainingDatabase.TrainingRuns.ReleaseTrainingRun` | backend/app/db_training_runs.py:625-647 | A release queues the row again, clears the whole lease and keeps an earlier error unless a new one is given. |
| `TrainingDatabase.TrainingRuns.FailTrainingRun` | backend/app/db_training_runs.py:650-675 | A failure ends the row with its reason and clears the whole lease. |
| `TrainingDatabase.TrainingRuns.SupersedeTrainingRun` | backend/app/db_training_runs.py:678-697 | A superseded row is failed with the fixed superseded message; its job id, attempt count and counts stay. |
| `TrainingDatabase.TrainingRuns.MarkTrainingRunSubmitted` | backend/app/db_training_runs.py:700-735 | A submission is recorded only for a known run and a non-blank job id, and clears error and lease. |
| `TrainingDatabase.ModelRequests.CreateModelRequest` | backend/app/db_model_requests.py:131-191 | One outstanding request per course: created exactly when there is none or the last one is finished, and then reset in full, its pointer to a run included. |
| `TrainingDatabase.ModelRequests.UpdateModelRequestForRun` | backend/app/db_model_requests.py:194-244 | A report's patch lands exactly while the request names that run or none. |
| `TrainingDatabaseLaws.QueueIsSound` | backend/app/db_training_runs.py:434-457 | Over every history of enqueues, claims, reports, retries, registrations and publications: at most one unfinished run per course, lease columns set together exactly while claimed, job ids and terminal states never undone. |
| `TrainingDatabaseLaws.StepKeeps` | backend/app/db_training_runs.py:554-735 | Each single transaction keeps that invariant and moves every row only forward. |
| `TrainingDatabaseLaws.CallbackWritesOneRow` | backend/app/training_queue_routes.py:513-765 | An accepted report rewrites exactly its own run's row, to the state that report stands for, and only an unfinished run or one with the same recorded outcome accepts one. |
| `TrainingDatabaseLaws.UntouchedFinishedOrSubmitted` | backend/app/training_queue_routes.py:513-765 | Apart from a claim or being handed back, no transaction changes a row without finishing it or giving it a job. |
| `TrainingDatabaseLaws.StepKeepsJobbed` | backend/app/db_training_runs.py:700-735 | A run shown as submitted or training always has a job id. |
| `TrainingDatabaseLaws.OnlyReportsNameJobs` | backend/app/db_training_runs.py:409-410 | A row's job id is the one a submission report or a completion of that very run named; no other transaction sets or changes one. |
| `TrainingDatabaseLaws.OnlyAClaimMovesALease` | backend/app/db_training_runs.py:554-622 | A row that is claimed after any other transaction is exactly the row it was before it. |
| `TrainingDatabaseLaws.AttemptCountsClaims` | backend/app/db_training_runs.py:601-620 | `attempt` equals the number of claims of the run over any history. |
| `TrainingDatabaseLaws.RetryVersusClaim` | backend/app/db_training_runs.py:276-383 | For any claimed row, well formed or not, exactly when the retry rule and the claim rule agree. |
| `TrainingDatabaseLaws.RetryAgreesWithClaiming` | backend/app/db_training_runs.py:276-383 | On every reachable queue a claimed run may be retried exactly when a worker could retake it at that instant. |
| `TrainingDatabaseLaws.QueuedWithAJobIsStuck` | backend/app/db_training_runs.py:110-120 | A queued run with a job id can never be claimed, and is retryable exactly when it carries an error or its pinned data changed. |
| `TrainingDatabaseLaws.ReleasingASubmittedRunSticksIt` | backend/app/training_queue_routes.py:513-534 | A release of a submitted run is accepted and leaves it in just that state, with no way out exactly when neither the release nor the row gives an error and the data is unchanged. |
| `TrainingDatabaseLaws.StuckRunIsReachable` | backend/app/training_queue_routes.py:513-534 | From an empty queue: queued, claimed, submitted and released without a body, a run can be neither claimed nor retried at any time. |
| `TrainingDatabaseLaws.WorkerRuleDiffersIff` | scripts/lib/training_queue.py:573-600 | The worker's own rule for which rows it may claim differs from the backend's exactly on a blank job id and on half a lease that has not run out. |
| `TrainingDatabaseLaws.WorkerSeesWhatItMayClaim` | scripts/lib/training_queue.py:586-600 | On every reachable queue the two rules agree. |
| `TrainingDatabaseLaws.MovableInTimeIff` | backend/app/db_training_runs.py:310-383 | Left alone, a run can be claimed or retired again at some later time exactly when it has not succeeded and is not queued with a job, no error and unchanged data; then at the latest when its lease ends or six hours after its last update. |
| `TrainingDatabaseLaws.RetryAcceptedIff` | backend/app/training_retry.py:90-211 | A retry goes through exactly when the retry rule allows it, a data reference can be carried and no other run of the course is unfinished. |
| `TrainingDatabaseLaws.LiveJobIsNotRetired` | backend/app/db_training_runs.py:344-356 | A submitted or training run is refused a retry with 409, and nothing changes, exactly while fewer than 21,600,000,000 microseconds have passed since its last word. |
| `TrainingDatabaseLaws.WaitingRunIsNotRetired` | backend/app/db_training_runs.py:298-343 | A queued run is retryable exactly when its error has text or its non-blank pin differs from the non-blank digest on disk. |
| `TrainingDatabaseLaws.RetryReplacesTheOutstandingRun` | backend/app/training_retry.py:90-211 | Retiring a course's outstanding run always lets its replacement in: the replacement is the one unfinished run, claimable at once, pinned to the data on disk, and owns the request; the retired row is failed with its job id and attempts kept. |
| `TrainingDatabaseLaws.RefusalsAreFinal` | backend/app/training_queue_routes.py:420-491 | A refused well-formed report has status 404 exactly for an unknown run and otherwise 409, the two statuses a worker takes as final. |
| `TrainingDatabaseLaws.RequestFollowsReport` | backend/app/training_queue_routes.py:537-765 | What each accepted report makes of the request while the run owns it: `training` with that job, `failed` with a message, `ready` with a registered version, and no other change of status. |
| `TrainingDatabaseLaws.TrainingMeansAJob` | backend/app/training_queue_routes.py:542-609 | Over every history a request says `training` only with a job named, and that job is the one recorded on the run the request points at. |
| `TrainingDatabaseLaws.ReportsMoveOnlyTheirOwnRequest` | backend/app/db_model_requests.py:194-244 | A report changes no request but its own course's, that one only while its run owns it, and the run owns it afterwards. |
| `TrainingDatabaseLaws.RetiredRunIsRefused` | backend/app/training_queue_routes.py:420-441 | Every report of a retired run, and every registration naming it, is refused while another run owns the request. |
| `TrainingDatabaseLaws.RetiredRunIsInert` | backend/app/training_queue_routes.py:420-441 | Through any interleaving that leaves the pointer to the workers, the retired row stays exactly as it was and no later report of it is accepted. |
| `TrainingDatabaseLaws.LateFailureMovesRequestIff` | backend/app/training_queue_routes.py:1013-1063 | A repeated failure report of a failed run is accepted exactly when the request names that run or none; accepted, it fails the request and takes it over. |
| `TrainingDatabaseLaws.RetiredRunTakesAFreshRequest` | backend/app/db_model_requests.py:131-191 | The failing case: opening a new request clears the pointer, and a late failure report of a run retired long ago then fails that new request. |
| `TrainingTransactions.ClaimTakesTheOldest` | backend/app/db_training_runs.py:110-120 | A claim changes the database exactly when it names its owner and a lease, and its row is unlocked, of a wanted course, without a job, waiting or with its lease run out, and queued no later than any other such row, by id at the same instant. |
| `TrainingTransactions.ClaimLeaves` | backend/app/db_training_runs.py:601-620 | A claimed row holds this lease whole and one more attempt; its other columns and every other row are as they were. |
| `TrainingTransactions.HalfALeaseIsNone` | backend/app/db_training_runs.py:276-298 | A claimed row is retryable exactly when one of its three lease columns is missing or the lease has run out. |
| `TrainingTransactions.EndedRunAndRetry` | backend/app/db_training_runs.py:336-359 | Whatever its lease, pin or age, a failed run may be retried and a successful one may not. |
| `TrainingTransactions.EnqueueAnswers` | backend/app/db_training_runs.py:386-464 | Which of 404, 409 and 503 an enqueue gets, in that order, and otherwise the one new row: queued now, untried, counts no lower than zero, no job, lease, error or outcome. |
| `TrainingTransactions.ReadableCompletionIff` | backend/app/training_queue_routes.py:970-1011 | Exactly which completions are read at all: a version that looks like one and, for a success to be registered, a base model, a relative artifact and no step short. |
| `TrainingTransactions.ReportRefusedIff` | backend/app/training_queue_routes.py:420-510 | Exactly which reports are refused and with which status: 422 unread or without a job id, 404 for no such run, 409 when the request has left the run (except a hand-back) or the report is at odds with what is recorded. |
| `TrainingTransactions.ReportLeaves` | backend/app/training_queue_routes.py:513-765 | The row an accepted report leaves, column by column, for all six reports; every other row is as it was. |
| `TrainingTransactions.ReportTells` | backend/app/training_queue_routes.py:537-765 | The request an accepted report leaves, field by field, with the texts the professor and the operator read. |
| `TrainingTransactions.RetryAnswers` | backend/app/training_retry.py:90-211 | Which of 404, 409 and 503 a retry gets, in the order the transaction finds them, and that it goes through otherwise. |
| `TrainingTransactions.RetryLeaves` | backend/app/training_retry.py:140-205 | A retry retires the old row keeping its history, queues one replacement with the carried reference and the first positive counts, pinned to the data on disk, and takes the old job off the request; nothing else changes. |
| `TrainingTransactions.RequestOpens` | backend/app/db_model_requests.py:131-191 | Which of 404 and 409 a new request gets, and otherwise the fresh request, whole. |
| `TrainingTransactions.NamedAsBefore` | backend/app/training_queue_routes.py:1272-1330 | A registration is under the name its run has already, failing that the one asked for, failing that the next free number. |
| `TrainingTransactions.RegistrationAnswers` | backend/app/training_queue_routes.py:1272-1330 | A registration is refused exactly for an unknown course, a run the request has left, or a second name for one run. |
| `TrainingTransactions.RegistrationLeaves` | backend/app/training_queue_routes.py:1330-1398 | What a registration writes: one version row, the pointer if asked, and for a ready version the run's and the request's success. |
| `TrainingTransactions.AdministratorWrites` | backend/app/training_queue_routes.py:1401-1530 | A request edit replaces the request a course has and makes none, a version is never registered as online, and publication and withdrawal touch that course's registry alone. |
| `TrainingTransactions.CompletionRegisters` | backend/app/training_queue_routes.py:1110-1132 | A success to be registered becomes a version made of what it reports, ready and offline, of that run. |
| `TrainingDatabaseLaws.OneRunOneVersion` | backend/app/training_queue_routes.py:1272-1330 | However often completions are redelivered or versions registered by hand, a run never stands for two versions. |
| `TrainingDatabaseLaws.CompletionRecordedIff` | backend/app/training_queue_routes.py:1013-1150 | A success to be registered, from the run that owns the request and in conflict with nothing recorded, is recorded as succeeded exactly when the course is known and the run is not registered under another name than the one asked for; refused, it changes nothing. |
| `TrainingDatabaseLaws.CompletionLostWithItsRegistration` | backend/app/training_queue_routes.py:1069-1150 | The failing case: asking for another name than the run already has loses the run's own completion with the registration. |
| `TrainingDatabaseLaws.RedeliveredCompletionTakesVersionOffline` | backend/app/training_queue_routes.py:1272-1398 | A completion delivered again after its version was activated writes `offline` over `online`, and the course stops being served that version. |
| `ClaimLocking.OverlappingClaimsAreSerial` | backend/app/db_training_runs.py:554-622 | With choose and stamp separated by any other transactions, the table is what a one-at-a-time history produces, held rows are distinct and still claimable, and no attempt is granted twice. |
| `ClaimLocking.StampIsAClaim` | backend/app/db_training_runs.py:601-620 | The stamp of a held row equals one claim transaction that skipped every other row as locked. |
| `ClaimLocking.TwoClaimsNeverReturnTheSameRun` | backend/app/db_training_runs.py:554-622 | Two grants of one run carry different, increasing attempts. |
| `ClaimLocking.LeasesExclude` | backend/app/db_training_runs.py:110-120 | While a row still carries a claim, another claim can choose it only at or after that claim's expiry. |
| `ModelRegistry.SelectServableVersion` | backend/app/course_model_resolution.py:151-180 | The loop returns the last, in version order, of the online and ready versions, and none exactly when there is none. |
| `ModelRegistry.NextVersion` | backend/app/training_queue_routes.py:1242-1249 | The allocated name is a version name that no registered version has. |
| `ModelRegistry.NextVersionIsNext` | backend/app/training_queue_routes.py:1242-1249 | The allocated number is one past the highest registered, and v1 when there is none. |
| `ModelRegistry.VersionNameIff` | backend/app/training_queue_routes.py:74 | Version names are a `v` followed by one or more digits. |
| `ModelRegistry.WriteLandsIff` | backend/app/db_models.py:130-393 | Which writes land: a version is never registered as online and is published only when it is there and ready; what each leaves. |
| `ModelRegistry.HistoryGoesOn` | backend/app/db_models.py:130-393 | A history of writes is its writes one after the other. |
| `ModelRegistry.UnrecognisedComeLast` | backend/app/course_model_resolution.py:183-188 | Names that are not a `v` and digits sort as number one thousand million, after all lower version numbers. |
| `ModelRegistry.BeforeIsTotalOrder` | backend/app/course_model_resolution.py:183-188 | Ordering by number and then text is a total order, so v10 follows v9 and the choice is unique. |
| `ModelRegistry.ResolutionIsAFunction` | backend/app/course_model_resolution.py:198-270 | A course resolves to at most one answer. |
| `ModelRegistry.ResolutionExists` | backend/app/course_model_resolution.py:198-270 | A course always resolves to an answer: a newest servable version, or unavailable. |
| `ModelRegistry.ModelTables.UpsertModelVersion` | backend/app/db_models.py:130-193 | Registration replaces or adds one version row and moves the current pointer only when asked. |
| `ModelRegistry.ModelTables.MarkVersionPublished` | backend/app/db_models.py:300-357 | Publishing demotes every other online row and promotes this one, and does nothing for an unknown version. |
| `ModelRegistry.ModelTables.MarkVersionUnpublished` | backend/app/db_models.py:360-393 | Unpublishing takes exactly this version offline. |
| `ModelRegistry.AtMostOneOnline` | backend/app/db_models.py:300-393 | Over every history of registrations, publications and withdrawals at most one version of a course is online. |
| `ModelRegistry.ServedIsTheOnlineReadyVersion` | backend/app/course_model_resolution.py:151-180 | After any such history the version served is exactly the one that is online and ready, for a course with a model row. |
| `ModelRegistry.HighestOnlineNumberWins` | backend/app/course_model_resolution.py:183-188 | Of several online and ready versions none is served while one with a higher number exists. |
| `ModelRegistry.PublishingDecides` | backend/app/db_models.py:300-357 | Publishing a ready version decides what is served whatever was online; repeating it changes no other row and not the answer. |
| `ModelRegistry.PublishingLeavesTheRest` | backend/app/db_models.py:300-357 | Publishing changes nothing of any row but deployment and stamp, leaves exactly the published version online, and the pointer alone. |
| `ModelRegistry.WithdrawnIsNotServed` | backend/app/db_models.py:360-393 | A withdrawn version answers nobody: what is served changes exactly when it was the one served; every other row, the pointer and its own status stay. |
| `ModelRegistry.OnlyOnlineAndReadyIsServed` | backend/app/course_model_resolution.py:151-180 | What is served is online and ready, of a course with a model row. |
| `ModelRegistry.RegistrationChangesServing` | backend/app/db_models.py:130-193 | Registering changes what is served exactly when it re-registers the served version, or creates the missing model row of a course with another version online and ready. |
| `ModelRegistry.FreshRegistrationIsInvisible` | backend/app/db_models.py:130-193 | Registering a version the course does not have never changes the answer of a course that has a model row. |
| `TrainingWorkerSafety.NeverCallsOnceKnown` | training/run_training_queue.py:573-601 | With no assumption about leases, clocks, crashes or the other workers: once a job id is in the local record, a worker that makes its duplicate check afterwards never calls the launcher for that run in any continuation; nor does one that holds no claim from before the job was on the row. |
| `AnotherJob.AnotherJobIff` | training/run_training_queue.py:516-727 | For any state of a sound queue: some continuation gives the run another job exactly when somebody is between the duplicate check and the launcher, or the local record has no job and somebody holds the run or its row can still be claimed (or, if it was never queued, its course is known). |
| `AnotherJob.FurtherJobIff` | training/run_training_queue.py:441-727 | So after any history from an empty system a run is safe from a further job, whatever comes, exactly when that does not hold. |
| `AnotherJob.NoMoreJobs` | training/run_training_queue.py:573-601 | When it does not hold, no continuation gives the run a job. |
| `AnotherJob.NeverLaunchedOnceKnown` | training/run_training_queue.py:573-601 | In particular once every worker is past knowing of a job. |
| `JobIds.NoJobIdIsInvented` | backend/app/db_training_runs.py:409-410 | After any history every job id in a local record or in a worker's hands is one the launcher produced for a run with that id; and so is every job id on a row, as long as each completion names such a job. |
| `TrainingWorkerSafety.AtMostOneJob` | training/run_training_queue.py:441-711 | Across every interleaving of workers, lost replies, expiring leases, reconciliations, retries, completions and crashes, a run that met none of the listed hazards has at most one job. A condition on the events of a run; the exact condition on its state is `AnotherJob.FurtherJobIff`. |
| `TrainingWorkerSafety.OutsideEventsReachTheQueue` | backend/app/training_queue_routes.py:513-1150 | What others send to the queue is applied to it at once and touches no worker or local record; claims, hand-backs, submissions and refusals come from workers alone. |
| `TrainingWorkerSafety.LeasesStayExclusive` | training/run_training_queue.py:534-566 | Between a claim and its expiry the row still belongs to that claim, or can never be claimed again, and no two workers hold live claims of one run. |
| `TrainingWorkerSafety.RowStaysHeld` | backend/app/db_training_runs.py:554-735 | No step but a hazard takes the row from a worker whose lease is running. |
| `TrainingWorkerSafety.LateLaunchDuplicates` | training/run_training_queue.py:659-664 | The launcher called on a lease that has run out leads to a second job. |
| `TrainingWorkerSafety.SlowRecordDuplicates` | training/run_training_queue.py:659-685 | A lease that runs out between the launcher and the local record leads to a second job. |
| `TrainingWorkerSafety.CrashAfterLaunchDuplicates` | training/run_training_queue.py:659-685 | A crash between the launcher and the local record leads to a second job. |
| `TrainingWorkerSafety.UnprintedJobDuplicates` | training/run_training_queue.py:716-727 | A job whose id the launcher did not print is reported as a failed submission and started again, within the lease. |
| `TrainingWorkerSafety.LateReleaseDuplicates` | training/run_training_queue.py:603-640 | A worker that outlived its lease can hand back a run another worker holds, and the run is started twice. |
| `TrainingWorkerSafety.LateFailureReportDuplicates` | training/run_training_queue.py:716-727 | So can one that reports a failed submission late. |
| `TrainingWorkerRun.OrderOfSteps` | training/run_training_queue.py:516-727 | What each ending of an invocation says about its own steps, in order: nothing is launched but after a delivered claim, the duplicate check and the recorded intent, and a printed job is recorded before it is reported. |
| `TrainingWorkerRun.ExitIff` | training/run_training_queue.py:516-727 | The exit status is zero exactly when nothing was queued, another runner was first, or the backend is heard to know the run's job; otherwise one. |
| `TrainingWorkerRun.Cluster.RunOnce` | training/run_training_queue.py:516-727 | One invocation first delivers the pending reports, then does exactly its script (claim, duplicate check, then a report, a hand-back, or intent, launch, record, report) while everybody else keeps acting; its exit status is that of how it ended, and zero only when nothing was claimed or the run's job is on record as acknowledged. |
| `TrainingWorkerRun.Cluster.TakeOne` | training/run_training_queue.py:539-727 | The claim and what follows it: the exit status of each ending, and a submitted job in the local record, marked reported when the backend accepted it. |
| `TrainingWorkerRun.Cluster.SubmitCleared` | training/run_training_queue.py:644-727 | Intent before launcher, job id on disk before the backend is told, and a failure report exactly when no id was printed. |
| `TrainingWorkerRun.Cluster.FinishClaimed` | training/run_training_queue.py:568-727 | A claimed run ends as already submitted, handed back, submitted or not submitted, with the steps each ending stands for. |
| `TrainingWorkerRun.Cluster.ClaimNext` | training/run_training_queue.py:534-566 | Discovery and claim: nothing queued, a conflict, a lost reply, or the run the backend chose. |
| `TrainingWorkerRun.Cluster.ReconcileUnreportedSubmissions` | training/run_training_queue.py:441-513 | Every submission unreported at the start is reported again, and no step of this worker is taken. |
| `TrainingWorkerRun.InvocationsStartOneJob` | training/run_training_queue.py:516-727 | However many invocations ran, a run that met no hazard has at most one job. |
| `SubmissionRecords.ReportedIff` | scripts/lib/training_state.py:141-230 | After any history a run record says it was reported exactly when its submission was settled after it was last made: an acceptance heard, a heard 404 or 409 to the repair, or a settled completion. |
| `SubmissionRecords.ReportedWasSettled` | training/run_training_queue.py:441-513 | The job a reported record names is the one that was settled, unless another job of the run recorded itself there since. |
| `SubmissionRecords.SecondJobPassesForReported` | training/report_training_result.py:637-648 | The failing case: a second job that records itself under a reported run is never told of. |
| `SubmissionRecords.StaysOnTheList` | training/run_training_queue.py:441-513 | An unreported submission stays on the repair list until it is settled, whatever happens in between. |
| `SubmissionRecords.LostReportIsUnreported` | training/run_training_queue.py:670-695 | A submission whose report was lost, and that nothing settled since, is on the repair list. |
| `SubmissionRecords.RepairTellsTheBackend` | training/run_training_queue.py:441-513 | One heard repair of a listed submission tells the backend its recorded job and takes it off the list exactly for an acceptance, a 404 or a 409. |
| `PendingReports.PendingKeyIsInjective` | scripts/report_model_published.py:98-101 | Two publications share a pending file only when they are the same version of the same course, hyphens in course ids notwithstanding. |
| `PendingReports.SuccessMeansAnAdapter` | training/report_training_result.py:262-286 | Success is reported exactly for a job that says so and left an adapter; only then is an artifact named; a failure always has a stage and a reason. |
| `PendingReports.PendingStore.SendCompletion` | training/report_training_result.py:289-332 | One send: the file goes exactly when the report is accepted or refused with 404 or 409, and then the run record stops owing a submission report. |
| `PendingReports.PendingStore.ReportCompletion` | training/report_training_result.py:335-399 | Persist, then send: the report is pending afterwards unless this send settled it, and the exit status is zero either way. |
| `PendingReports.PendingStore.SendPublication` | scripts/report_model_published.py:122-155 | A publication's file goes exactly when it is accepted or finally refused. |
| `PendingReports.PendingStore.ReportPublication` | scripts/report_model_published.py:158-198 | Persist, then send, for a publication; delivered exactly when configured and accepted. |
| `PendingReports.PendingStore.FlushPending` | training/report_training_result.py:420-530 | What stays is exactly what nobody answered for and the submissions; the summary counts each fate; without configuration nothing is removed and everything counts as failed. |
| `PendingReports.EveryEntryIsCounted` | training/report_training_result.py:420-530 | Every listed entry has exactly one of the fates delivered, failed, superseded, refused or skipped. |
| `PendingReports.FatesByReply` | training/report_training_result.py:311-325 | What becomes of an entry, reply by reply: delivered exactly for an acceptance, superseded or rejected exactly for 404 and 409, undelivered for everything else; submissions are skipped. |
| `PendingReports.TallyIsACount` | training/report_training_result.py:420-530 | The summary numbers are how many entries met each of these fates. |
| `ReportAnswers.EveryAnswerSettles` | backend/app/training_queue_routes.py:420-491 | Every answer the backend gives to a completion it can read settles the pending file: delivered when applied, superseded when refused; one it cannot read stays pending. |
| `ReportAnswers.RetiredRunsReportGoes` | training/report_training_result.py:289-332 | The report of a retired or removed run leaves the disk without touching the queue. |
| `PendingRaces.LosesIffClobbers` | training/report_training_result.py:289-332 | One step loses a report exactly when it clears a file that was rewritten since the report that was sent. |
| `PendingRaces.NothingIsLost` | training/report_training_result.py:289-399 | Under any number of reporters and flushes, any answers and crashes anywhere, without such a step the latest report under a key is on disk until acknowledged or finally refused. |
| `PendingRaces.SafeThroughoutIff` | training/report_training_result.py:289-399 | It is so all along exactly when there is no such step. |
| `PendingRaces.ReportIsARun` | training/report_training_result.py:335-399 | One reporter nobody gets in the way of leaves what the store's methods leave. |
| `PendingRaces.FlushIsARun` | training/report_training_result.py:420-530 | And one flush what the store's flush leaves. |
| `PendingRaces.OneReportPerRunIsNeverLost` | scripts/lib/training_state.py:283-313 | The condition holds for every key that is only ever reported with one payload. |
| `PendingRaces.LaterReportCanBeLost` | scripts/lib/training_state.py:283-327 | Otherwise a later report can be lost: the store is keyed by run and kind, and the clear does not look at what it removes. |
| `PendingRaces.StillDeliverable` | training/report_training_result.py:420-530 | Whatever has happened, a pending report can be settled by the next free process, touching no other entry. |
| `ModeFile.Store.Write` | scripts/classroom_gpu_mode.py:161-177 | A GPU text is written only with the lock; a switch to the VM is never refused for want of it. |
| `ModeFile.Store.ReplaceIfUnchanged` | scripts/classroom_gpu_mode.py:180-192 | The file is replaced exactly when it still is the expected text and the lock was had. |
| `ModeFile.Store.Start` | scripts/classroom_gpu_mode.py:618-718 | `start` changes nothing unless everything was ready; a failed confirmation puts back what was there, except that a GPU text is not put back while the lock is busy. |
| `ModeFile.Store.Stop` | scripts/classroom_gpu_mode.py:721-730 | `stop` leaves VM mode, locked or not. |
| `ModeFile.OnlyTheJudgedSessionEnds` | scripts/classroom_gpu_mode.py:161-211 | In every interleaving of watchdogs, starts, rollbacks and unlocked stops, with deaths anywhere, a failback writes VM mode over the exact text it judged or over a file that is not GPU mode. |
| `ModeFile.SessionsAreSafeIff` | scripts/classroom_gpu_mode.py:161-211 | No run whatever ends another session than the judged one exactly when the filesystem has locks. |
| `ModeFile.WriteIsARun` | scripts/classroom_gpu_mode.py:161-177 | The store's write is what one process does that nobody gets in the way of. |
| `ModeFile.ReplacementIsARun` | scripts/classroom_gpu_mode.py:180-192 | And so is its replacement, switch history included. |
| `ModeFile.OneThingAtATime` | scripts/classroom_gpu_mode.py:161-192 | A process begins nothing while it is busy, takes no lock another has, and gives up none that is free. |
| `ModeFile.WithoutLocksASessionCanEnd` | scripts/lib/gpu_failback_helpers.py:80-110 | On a filesystem that cannot lock, that happens. |
| `FailbackWatchdog.Watchdog.RunOnce` | scripts/gpu_failback_watchdog.py:235-295 | In GPU mode a run ends as the check demands: a failback is due only near the end of the allocation or after the configured number of successive recorded failed checks of a file with this fingerprint, each within the window of the one before, and always near the end; it is then made unless this is a dry run, the lock is busy or somebody else changed the file. A failback is one switch over the judged text to the VM, its record, its warm-up, in that order; in no other way does the watchdog change the mode file. |
| `FailbackWatchdog.Watchdog.InGpuMode` | scripts/gpu_failback_watchdog.py:244-295 | The same for one check in GPU mode. |
| `FailbackWatchdog.Watchdog.InVmMode` | scripts/gpu_failback_watchdog.py:298-326 | In VM mode a warm-up is taken up again exactly when it is unfinished, or failed and the delay has passed, below the limit and on the very file its failback wrote; the state file then is what that attempt leaves; otherwise at most the state is written, and never the mode file. |
| `FailbackWatchdog.Watchdog.FailBack` | scripts/gpu_failback_watchdog.py:329-379 | Busy exactly when the lock is; otherwise one switch, exactly over the judged text, to the VM, then the record (warm-up pending, none attempted, this file's fingerprint), then the warm-up; deferred and superseded leave the file alone and write the state they should. |
| `FailbackWatchdog.Watchdog.RecordAndWarm` | scripts/gpu_failback_watchdog.py:364-379 | However the run is killed, what follows a switch is a beginning of: the record, the attempt counted, the warm-up, its outcome. |
| `FailbackWatchdog.Watchdog.Save` | scripts/gpu_failback_watchdog.py:145-151 | A state write that succeeds makes the streak on disk one that the recorded checks back; one that fails changes nothing. |
| `FailbackWatchdog.Watchdog.WarmUp` | scripts/gpu_failback_watchdog.py:382-403 | One attempt more, and on disk exactly what the writes that landed leave; however the run is killed, every failback's warm-ups stay within the limit plus the attempts whose count could not be written. |
| `FailbackWatchdog.Watchdog.BeginAttempt` | scripts/gpu_failback_watchdog.py:382-386 | The attempt is counted before it is made: one more started, and one more counted on disk unless the write failed. |
| `FailbackWatchdog.Watchdog.FinishAttempt` | scripts/gpu_failback_watchdog.py:387-399 | An attempt's outcome and time are recorded together or not at all. |
| `FailbackWatchdog.OneMoreFailure` | scripts/gpu_failback_watchdog.py:161-172 | Counting one more failure on a persisted streak is justified by that many successive recorded failed checks; seconds are cut off without widening the window. |
| `FailbackWatchdog.BackedBySameText` | scripts/lib/gpu_failback_helpers.py:74-76 | With a collision-free fingerprint those checks were of this very mode file. |
| `FailbackWatchdog.AnyNumberOfRuns` | scripts/gpu_failback_watchdog.py:100-403 | From a fresh installation, over any number of runs with any answers, failed writes and kills while people start and stop GPU mode: the switches in the mode file are those of the failbacks made, each over the text it judged, to the VM and for cause, and every failback has had at most three warm-ups plus one for each attempt whose count was not written. |
| `FailbackWatchdog.DeadGpuFailsBack` | scripts/gpu_failback_watchdog.py:277-295 | While nobody else touches the mode file and the state is read and written, the configured number of successive unwell checks of one text, each within the window, are counted one by one and the last makes the failback: switched, or deferred if the lock is busy. |
| `FailbackWatchdog.EndingIff` | scripts/gpu_failback_watchdog.py:249-268 | An allocation is ending exactly when a remaining time known from the file or the service is at most the margin. |
| `FailbackWatchdog.TakesUpIff` | scripts/gpu_failback_watchdog.py:298-326 | Which warm-ups are taken up, in numbers: tried twice at most, on their own file, interrupted or failed a minute ago. |
| `FailbackWatchdog.AttemptLeaves` | scripts/gpu_failback_watchdog.py:382-399 | What an attempt leaves on disk by which writes landed; a recorded success is never taken up again. |
| `FailbackWatchdog.WindowCloses` | scripts/gpu_failback_watchdog.py:161-172 | The window is measured from a time cut to the second, so it closes early by exactly the part cut off. |
| `FailbackWatchdog.UncountedWarmups` | scripts/gpu_failback_watchdog.py:382-403 | The failing case of the limit alone: while neither the count nor the outcome can be written, every run in VM mode takes the same warm-up up again, the fourth like the first. |
| `FailbackWatchdog.RetryDelay` | scripts/gpu_failback_watchdog.py:304-311 | The retry delay is measured from a time cut to the second, so a retry comes early by exactly the part that was cut off. |
| `GenerationMode.ModeCache.CurrentMode` | backend/app/generation_mode.py:128-151 | With a cache in step with the file, the call returns the file's mode (VM when missing or invalid), keeps the cache in step, and notifies exactly when the kind changes. |
| `GenerationMode.ModeCache.Remember` | backend/app/generation_mode.py:154-173 | For one thread alone: listeners are called exactly when the remembered kind changes, with the old and the new mode. |
| `GenerationMode.CallsAgreeWithTheFile` | backend/app/generation_mode.py:128-151 | Over any writes, removals and overlapping calls, each call returns a mode the file had during the call, and a cache entry usable for the file as it is holds the mode of the file as it is, as long as a replaced file's stat key never returns. |
| `GenerationMode.NextCallIsRight` | backend/app/generation_mode.py:128-151 | Whatever fell between other calls' stats and reads, the next undisturbed call returns the mode of the file as it is and leaves the cache holding it. |
| `GenerationMode.CallIsARun` | backend/app/generation_mode.py:128-173 | One thread's whole call among many threads, undisturbed, leaves the cache and tells the listeners what the cache's own method does, failed stats and reads included. |
| `GenerationMode.HitIsSeen` | backend/app/generation_mode.py:140-142 | A cache hit answers with a mode the file had after this call looked at it. |
| `ModeListeners.SwapsChain` | backend/app/generation_mode.py:156-158 | Under the lock the changes of kind chain, from VM to the mode that is cached. |
| `ModeListeners.EachSwapIsHeardOnce` | backend/app/generation_mode.py:154-173 | In every interleaving each change of kind is told to the listeners exactly once, by the thread that made it, or that thread still owes it. |
| `ModeListeners.NothingOwedMeansAllHeard` | backend/app/generation_mode.py:154-173 | Once every call has returned, the listeners have been told of each change, and of each once. |
| `ModeListeners.DeliveriesChainIff` | backend/app/generation_mode.py:154-173 | What the listeners are told chains exactly when the k-th change told has the parity of k, since changes alternate. |
| `ModeListeners.HeardInOrderIff` | backend/app/generation_mode.py:168-171 | They are told in the order of the changes exactly when each call is for the oldest change not yet told. |
| `ModeListeners.PromptCallsAreInOrder` | backend/app/generation_mode.py:154-173 | It is enough that no other change of kind falls between a thread's swap and its calls. |
| `ModeListeners.OvertakenCanStillChain` | backend/app/generation_mode.py:154-173 | It is not necessary: a change can fall in between and all still be in order. |
| `ModeListeners.LaterChangeCanBeHeardFirst` | backend/app/generation_mode.py:154-173 | The failing case: a later change is told first and the listeners are left believing GPU while the mode is VM. |
| `ModeListeners.LastWordIsRightIff` | backend/app/generation_mode.py:154-173 | The kind told last is the kind in effect exactly when the change told last has the parity of the last change. |
| `GenerationMode.ReturningFileCanStayWrong` | backend/app/generation_mode.py:131-142 | Distinct contents having distinct keys is not enough: an old file returning with its old key can leave the cache wrong. |
| `GenerationMode.FailedReadSticks` | backend/app/generation_mode.py:145-149 | A failed read is remembered like an answer until the file is replaced. |
| `GenerationMode.DisagreesIffBroken` | backend/app/generation_mode.py:128-158 | From agreement, a step makes the cache disagree with the file exactly when a thread stores, under the key the file has, a mode it does not have, or a file comes in under the cached key with another mode. |
| `GenerationMode.AgreesThroughoutIff` | backend/app/generation_mode.py:128-158 | Over any run, failed reads and returning files included, the cache agrees all along exactly when no step is one of those. |
| `GenerationMode.StaysWrongUntil` | backend/app/generation_mode.py:128-158 | A cache that disagrees goes on doing so until the file is replaced, its stat fails, or a thread stores another key or the right mode. |
| `HeldOutOverlap.ContainmentFollowsJaccard` | evaluation/check_overlap.py:88-95 | Containment is at least 2j/(1+j) for jaccard j. |
| `HeldOutOverlap.JaccardNeverDecides` | evaluation/check_overlap.py:80-81 | A jaccard at a level's limit carries containment to that level's limit, for REJECT and REVIEW. |
| `HeldOutOverlap.VerdictIsOfTop` | evaluation/check_overlap.py:98-103 | The verdict is a step function of the largest of the three measures, with steps at 0.60 and 0.75. |
| `HeldOutOverlap.VerdictByCounts` | evaluation/check_overlap.py:80-103 | In whole numbers: REJECT exactly when three quarters of the words of either question are shared or the ratio is 0.75, held out exactly when both are below three fifths. |
| `HeldOutOverlap.JaccardByCounts` | evaluation/check_overlap.py:80-95 | The jaccard limits in whole numbers: three fifths and nine twentieths of all words. |
| `HeldOutOverlap.Nearest` | evaluation/check_overlap.py:184-190 | The loop returns the scores of an item with the largest top measure, or zeros when none is above zero. |
| `HeldOutOverlap.NearestDecides` | evaluation/check_overlap.py:184-190 | The verdict of that one item is the worst verdict over the whole corpus. |
| `HeldOutOverlap.RejectLimitIsTight` | evaluation/check_overlap.py:80-81 | With any higher REJECT limit for containment and ratio the nearest item, by a ratio that can occur, could hide a rejected one. |
| `HeldOutOverlap.CheckTraining` | evaluation/check_training_overlap.py:66-104 | The exit status is zero exactly when there is something to check and no training question overlaps any held-out one, although repeats are skipped; checked and flagged count distinct questions. |
| `HeldOutOverlap.ScanStep` | evaluation/check_training_overlap.py:87-104 | Skipping a repeated question changes neither the set of questions nor the set of flagged ones. |
| `TrainingPlan.NestedCeiling` | training/train_qlora.py:207-226 | Rounding up to device batches and then to accumulation groups is rounding up once by their product. |
| `TrainingPlan.BudgetExistsIff` | training/train_qlora.py:192-260 | A full run's step budget is refused exactly for non-positive counts, epochs or batch parameters, a smoke run's exactly for a missing or non-positive cap. |
| `TrainingPlan.BudgetCoversTraining` | training/train_qlora.py:207-260 | A full run's budget covers every example in every epoch and exceeds that by less than one batch less one example per epoch and one step; a smoke run's is its cap. |
| `TrainingPlan.NeverBelowTheTrainer` | training/train_qlora.py:229-252 | On one device it is never below the trainer's floor-based budget, exceeds it by at most one step per epoch rounded up, and equals it when the batches divide evenly. |
| `TrainingPlan.ThirtySevenExamples` | training/train_qlora.py:240-246 | The documented case: 15 steps where the trainer would stop at 12. |
| `TrainingPlan.WarmupFits` | training/train_qlora.py:934-948 | Warm-up steps are the least whole number at or above the ratio of the total, never more than the total, and zero only for ratio zero. |
| `TrainingPlan.WarmupExistsIff` | training/train_qlora.py:934-948 | A warm-up length exists exactly for a ratio between zero and one and a positive number of steps. |
| `TrainingPlan.FirstIff` | training/train_qlora.py:567-592 | The first record of a format is one with none of that format before it, a missing format counting as bare. |
| `TrainingPlan.SmokeSubset` | training/train_qlora.py:567-592 | An in-order selection of min(limit, n) records with the first record of every format when the formats fit, the formats met first otherwise, and the earliest others after them. |
| `TrainingPlan.AuditRecordLengths` | training/train_qlora.py:760-811 | Every record has its row; the oversized lines are exactly those past the window, the maximum is attained, the total is the sum. |
| `TrainingPlan.TotalIsASum` | training/train_qlora.py:760-811 | The reported total is the sum over the records, however they are divided. |
| `TrainingPlan.ApplyOversizedPolicy` | training/train_qlora.py:814-849 | Nothing oversized keeps everything; otherwise `fail` stops and `drop` removes exactly the listed lines. |
| `TrainingPlan.PrepareSplit` | training/train_qlora.py:1239-1257 | Audit and policy together: under `drop` exactly the records that fit, in order; under `fail` all of them or none, none exactly when one does not fit. |
| `Invitations.Table.Consume` | backend/app/db_invitations.py:264-301 | The conditional update succeeds exactly when the derived status is active at that time, and then counts one use. |
| `Invitations.Table.Create` | backend/app/db_invitations.py:113-206 | A new invitation is active until it expires; classroom codes have no limit, every other kind is for one use. |
| `Invitations.Table.Revoke` | backend/app/db_invitations.py:304-320 | After a revoke the invitation is revoked; one already revoked keeps its first time and author. |
| `Invitations.Table.RevokeActiveStudentInvitations` | backend/app/db_invitations.py:402-419 | No live classroom code of the course is left, nothing else changes, and the count is how many were live. |
| `Invitations.AccountsMatchUses` | backend/app/auth_routes.py:497-565 | In every interleaving of redemptions, revocations and rollbacks an invitation has opened exactly as many accounts as its use count, never more than it allows. |
| `Invitations.ExclusiveStep` | backend/app/db_invitations.py:279-300 | A row is consumed by one open transaction at most and stays consumable until that ends. |
| `Invitations.SpentMeansNever` | backend/app/db_invitations.py:68-78 | Revoked or used up is exactly not active at any time. |
| `Invitations.NeverActiveAgain` | backend/app/db_invitations.py:68-78 | What is not active at one time is not active at any later one, whatever happens in between. |
| `Invitations.NoAccountAfterTheEnd` | backend/app/auth_routes.py:497-565 | Once an invitation is over and no open request has consumed it or arrived while it was redeemable, it never opens another account. |
| `Invitations.OpensAnotherIff` | backend/app/auth_routes.py:490-565 | Once it is over, some continuation opens another account exactly when such a request is open. |
| `Invitations.SingleUseOpensOne` | backend/app/db_invitations.py:155-206 | A privileged invitation opens one account at most, over every history. |
| `Invitations.RevocationEndsIt` | backend/app/db_invitations.py:304-320 | A revocation that gets the row ends the invitation for good, whatever is under way; it waits for a redemption that holds it. |
| `Invitations.RetirementEndsThem` | backend/app/db_invitations.py:402-419 | Retiring revokes exactly the live codes of the course, all at once, unless a redemption holds one of them. |
| `Invitations.RequestSteps` | backend/app/auth_routes.py:497-565 | A request is let in exactly while the invitation is active. |
| `Invitations.ConsumeSteps` | backend/app/db_invitations.py:264-301 | A request gets the row exactly when the invitation is active at its own time, and is turned away otherwise. |
| `Invitations.EndingSteps` | backend/app/auth_routes.py:497-565 | A commit counts one use and names the account and the time; a roll back leaves the row as it was; both let it go. |
| `Invitations.ConsumeThenCommit` | backend/app/auth_routes.py:497-565 | What one open request comes to: an account exactly when the invitation is redeemable at the time the request arrived. |
| `Invitations.ArrivedInTimeIsRedeemedLate` | backend/app/auth_routes.py:490-545 | The time of the request counts: one that arrived before the deadline is redeemed after it. |
| `DatasetPinning.DigestIdentifiesFiles` | backend/app/dataset_artifacts.py:143-152 | The digest ignores the order of the file list and, with a collision-free hash, is equal only for the same names with the same file digests. |
| `DatasetPinning.OneArrangement` | backend/app/dataset_artifacts.py:151-152 | A multiset of lines has one sorted arrangement. |
| `DatasetPinning.JoinIsInjective` | backend/app/dataset_artifacts.py:152 | Joining by newlines loses nothing when no line is empty or contains one. |
| `DatasetPinning.LineIsInjective` | backend/app/dataset_artifacts.py:151 | A `name:digest` line determines both when names contain no colon. |
| `DatasetPinning.CountJsonlRecords` | backend/app/dataset_artifacts.py:155-167 | The count is the number of non-blank lines. |
| `DatasetPinning.DescribeDataset` | backend/app/dataset_artifacts.py:227-294 | A dataset is described exactly when the required files are there, none is too large and the manifest parses; files, counts and digest are those on disk. |
| `DatasetPinning.DescribableIff` | backend/app/dataset_artifacts.py:53-83 | Describable, by name: the three required files are there, none of the four known ones passes 67,108,864 bytes, and the manifest parses. |
| `DatasetPinning.DescribedFiles` | backend/app/dataset_artifacts.py:69-77 | The files described are exactly the known ones that are there, with their digests. |
| `DatasetPinning.RecordsAreLines` | backend/app/dataset_artifacts.py:155-167 | The count is the number of lines with a character that is not blank. |
| `DatasetPinning.PinDatasetForEnqueue` | backend/app/dataset_pinning.py:28-73 | Each refusal exactly for its cause, and otherwise the digest of the files on disk. |
| `DatasetPinning.ResolveRunDataset` | backend/app/dataset_artifacts.py:302-337 | Data is served exactly when the reference fits, the data is describable and the pin is absent or equal to the current digest. |
| `DatasetPinning.PinnedRunGetsItsOwnData` | backend/app/dataset_artifacts.py:328-332 | The current digest equals the pinned one exactly when the files are, name for name and digest for digest, those the run was queued against. |
| `FactCache.Builds.Start` | backend/app/fact_inventory_cache.py:149-200 | The running build of a course is returned unchanged; otherwise one new one is started and the last error forgotten. |
| `FactCache.Builds.Finished` | backend/app/fact_inventory_cache.py:185-200 | A finished task forgets itself and no other, and leaves its error. |
| `FactCache.Builds.TakeError` | backend/app/fact_inventory_cache.py:214-216 | A recorded failure is returned once. |
| `FactCache.StartIsBegin` | backend/app/fact_inventory_cache.py:149-200 | Seen from one course, starting a build in the shared dictionaries is the step the histories are about, and other courses see nothing. |
| `FactCache.FinishedIsCollect` | backend/app/fact_inventory_cache.py:185-200 | The same for the callback of a finished build. |
| `FactCache.OneBuildAndAnHonestCache` | backend/app/fact_inventory_cache.py:149-264 | Over every interleaving at most one build of a course runs, and an inventory served from the cache was extracted from chunks with the same fingerprint as those the caller asked about. |
| `FactCache.LoadAnswers` | backend/app/fact_inventory_cache.py:225-264 | A load is served from the cache exactly when no refresh is forced and the stored inventory has the fingerprint asked for; otherwise it waits for the running build, or for a new one for its chunks. |
| `FactCache.BuildEnds` | backend/app/fact_inventory_cache.py:97-146 | A success stores what it extracted under its own fingerprint; any other end stores nothing. |
| `FactCache.CallbackLeaves` | backend/app/fact_inventory_cache.py:185-200 | The callback forgets its own task and leaves the reason of a failure or cancellation. |
| `FactCache.ReplacementDropsTheInventory` | backend/app/storage.py:252-292 | Replacing the index drops the stored inventory, so the next load waits for a build. |
| `FactCache.JoinersGetTheBuild` | backend/app/fact_inventory_cache.py:252-264 | A waiting caller gets the result of the build it joined, which is for its chunks exactly when that build was. |
| `FactCache.JoinerCanGetOlderFacts` | backend/app/fact_inventory_cache.py:166-168 | A joiner can be handed the facts of an older index. |
| `FactCache.LateCallbackBlamesTheNewBuild` | backend/app/fact_inventory_cache.py:185-200 | A failure can be recorded against the build that replaced the failed one. |
| `FactCache.BlamedIff` | backend/app/fact_inventory_cache.py:185-200 | A step does that exactly when it is the callback of another build that failed or was cancelled and was not yet collected. |
| `FactCache.NeverBlamedIff` | backend/app/fact_inventory_cache.py:185-200 | Over any history no running build is blamed exactly when no such callback comes. |
| `FactFingerprint.EvidenceIsInjective` | backend/app/fact_inventory_cache.py:50-61 | The fingerprinted text determines the chunks when no id or order has a line break and no text has the separator in it or ends in the middle of one. |
| `FactFingerprint.BlankIff` | backend/app/fact_inventory_cache.py:50-61 | The characters taken off the ends of an id, by code point. |
| `FactFingerprint.EvidenceJoins` | backend/app/fact_inventory_cache.py:50-61 | The text of two lists is the texts of both joined by a line of two dashes. |
| `FactFingerprint.EvidenceOfEach` | backend/app/fact_inventory_cache.py:50-61 | The text of one chunk is its id, order and text on lines of their own. |
| `FactFingerprint.FingerprintIdentifiesChunks` | backend/app/fact_inventory_cache.py:50-61 | So with a collision-free hash fingerprints of such lists are equal exactly when the lists are. |
| `FactFingerprint.CachedInventoryIsOfTheseChunks` | backend/app/fact_inventory_cache.py:149-264 | And then an inventory served from the cache was extracted from the very chunks the caller asked about. |
| `FactFingerprint.EvidenceIsAmbiguous` | backend/app/fact_inventory_cache.py:50-61 | Any two chunks have the fingerprinted text of one other chunk, whatever the hash. |
| `FactFingerprint.IdentifiedIff` | backend/app/fact_inventory_cache.py:50-61 | Exactly which lists are identified among all with stripped ids and no line breaks in ids and orders: the empty one, and one chunk whose text does not spell the separator followed by what reads as such a chunk. |
| `Snapshot.MapRecords` | backend/app/firebase_snapshot.py:158-165 | A child node maps exactly when it is absent or an object of records that all map, one row for each, in order. |
| `Snapshot.MapModelRegistry` | backend/app/firebase_snapshot.py:378-458 | A registry maps exactly when its versions do and `currentVersion` names one of them, or there are none and none is named. |
| `Snapshot.MapCourse` | backend/app/firebase_snapshot.py:616-658 | A course maps exactly when its id, metadata and every child node do, to the rows it stands for. |
| `Snapshot.ParseSnapshot` | backend/app/firebase_snapshot.py:608-660 | All or nothing: a plan exists exactly when every course maps, and is all of their rows. |
| `SnapshotRows.CourseMapsIff` | backend/app/firebase_snapshot.py:608-660 | Exactly which courses can be imported, by path: a slug, an object, readable metadata, every record under each child node readable, and a model pointer that names one of its versions. |
| `SnapshotRows.RowsAreRecords` | backend/app/firebase_snapshot.py:608-660 | A row is in the plan exactly when its record is at its path in the export, for all eight tables. |
| `SnapshotRows.ValidCourseIdIff` | backend/app/course_id.py:7-21 | A course id is valid exactly when it is words of lower-case letters and digits joined by single hyphens. |
| `SnapshotRows.CoursesNodeIs` | backend/app/firebase_snapshot.py:598-606 | Courses are read from the object under `courses`, or else from the root. |
| `Snapshot.CountsMatch` | backend/app/firebase_snapshot.py:608-660 | Row counts are record counts in all eight tables. |
| `Snapshot.PlanIsClosed` | backend/app/firebase_snapshot.py:608-660 | Every row's course is a course row and every current version has its version row. |
| `Snapshot.PlanIsUnique` | backend/app/firebase_snapshot.py:608-660 | Every primary key occurs once. |
| `Snapshot.ImportablePlan` | backend/app/firebase_snapshot.py:608-660 | A plan drops nothing, repeats no key and leaves no reference open. |

## Left out

- Serial transactions: apart from the claim, each database transaction is one
  atomic step; PostgreSQL's anomalies under weaker isolation are not modelled.
- Free-form administrator edits of run rows (`update_course_training_run`)
  may write any state and are outside the step relation; edits of request rows
  are in it.
- TrainingMeansAJob: administrators' free-form edits of a request are taken to
  be honest themselves, because they may write any text.
- The run record on disk is read and rewritten as one step, and all workers
  share one state directory.
- TrainingWorkerSafety.AtMostOneJob: a condition on events, and sufficient; a
  hazard alone need not lead to a second job. The exact condition, on the state
  after any history, is `AnotherJob.FurtherJobIff`. Lease and worker clocks are
  one clock.
- JobIds.NoJobIdIsInvented: records are filed by run id alone, so the run is
  identified up to its course; what a completion names as its job is the job's
  own word.
- TrainingDatabaseLaws.ReleasingASubmittedRunSticksIt: the worker's own
  releases always give a reason; the case without one takes a release sent
  without a body.
- TrainingWorkerRun.Cluster.RunOnce: nobody else writes the pending store while
  it is flushed (`PendingRaces` has that), and the run records the flush
  settles are the store's own, not the cluster's. Dry runs only print and are
  not modelled. The duplicate check looks at the local record only: a row can
  be claimed only without a job id, so the row just claimed never carries one.
- PendingReports.PendingStore.FlushPending: an unreadable pending file is
  skipped by the listing and is not an entry; refusals are told by status,
  where the source looks for the status in the message.
- FailbackWatchdog.Watchdog.RunOnce: a check whose state write fails is not in
  the recorded history, so a healthy check that could not be written does not
  break a streak; nor is a check deferred because the mode file was locked
  while the allocation was ending, which is saved without touching the streak.
  The log file and messages are left out. One run at a time is taken from the
  run lock.
- GenerationMode.CallsAgreeWithTheFile: read errors and returning stat keys are
  excluded, and what a mode says about its own errors is not compared;
  `AgreesThroughoutIff` covers the cache with them in.
- ModeListeners: a thread's calls of all its listeners are one step, and a
  listener that raises is not modelled.
- ModeFile.OnlyTheJudgedSessionEnds: for filesystems that lock; the other kind
  has the failing case beside it.
- The tunnel, the four-condition check, model loading and health rules of the
  GPU scripts are one arbitrary answer each.
- HeldOutOverlap: measures are exact fractions where the source has floating
  point; the word list, the character ratio and the dataset fingerprint checks
  are parameters or omitted.
- TrainingPlan: epochs and ratios are exact; `dataset_composition`, device
  modes and trainer configuration are not modelled.
- TrainingPlan.AuditRecordLengths: token counts are one function of the record;
  previews and the report file are not modelled.
- Invitations: the password, session, memberships and audit rows of the accept
  transaction commit or roll back with it and are not separate state; tokens,
  classroom code collisions and rate limits are not modelled.
- Invitations.AccountsMatchUses: for a reset invitation the account counted is
  the password it set.
- DatasetPinning: only "\n" ends a line, blank lines are made of spaces, tabs
  and line ends, and decoding errors are not modelled.
- DatasetPinning.PinnedRunGetsItsOwnData: assumes a collision-free hash, as the
  digest comparison itself does.
- FactCache: one course and one event loop; what a build extracts is arbitrary.
- Snapshot: whether a record's own scalar fields parse is a parameter; only
  primary keys of rows are kept, and siblings of a wrapping `courses` node are
  ignored as in the source.
- Serving sessions, the browser, HTTP plumbing, authentication, retrieval,
  adapter installation, and the plain repositories would only add easy members.
