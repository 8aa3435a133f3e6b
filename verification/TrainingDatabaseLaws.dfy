/** What the training queue's transactions keep, over every history of claims,
    reports, retries and registrations in any order. Only the free-form admin
    PATCH of a run row is outside the step relation. */
module TrainingDatabaseLaws {
  import opened Common
  import opened TrainingDatabase
  import Models = ModelRegistry

  // ------------------------------------------------------------------ //
  // The queue's invariant
  // ------------------------------------------------------------------ //

  ghost predicate OneActivePerCourse(runs: RunTable) {
    forall a, b | a in runs && b in runs && a.course == b.course ::
      !Terminal(runs[a].state) && !Terminal(runs[b].state) ==> a == b
  }

  // The three lease columns are set together, exactly while a run is claimed,
  // and a claimed run has no job; a job id is never blank.
  predicate Coherent(run: Run) {
    (run.state == Claimed <==> Leased(run))
    && (run.state != Claimed ==> run.claimOwner.None? && run.claimedAt.None? && run.claimExpiresAt.None?)
    && (run.state == Claimed ==> run.jobId.None?)
    && run.jobId != Some("")
  }

  ghost predicate Sound(runs: RunTable) {
    OneActivePerCourse(runs) && forall k :: k in runs ==> Coherent(runs[k])
  }

  // How a row may change: its identity never, its attempt count only upwards,
  // a job id once set stays set, a finished run stays finished and a
  // successful one successful.
  predicate Forward(was: Run, now: Run) {
    now.mode == was.mode && now.enqueuedAt == was.enqueuedAt && now.datasetRef == was.datasetRef
    && now.approved == was.approved && now.datasetSha256 == was.datasetSha256
    && now.attempt >= was.attempt
    && (was.jobId.Some? ==> now.jobId.Some?)
    && (Terminal(was.state) ==> Terminal(now.state))
    && (was.state == Succeeded ==> now.state == Succeeded)
  }

  ghost predicate Advanced(was: RunTable, now: RunTable) {
    forall k :: k in was ==> k in now && Forward(was[k], now[k])
  }

  lemma RewritingOneRow(runs: RunTable, key: RunKey, run: Run)
    requires Sound(runs) && key in runs && Coherent(run) && Forward(runs[key], run)
    ensures Sound(runs[key := run]) && Advanced(runs, runs[key := run])
  {
  }

  // The one row a worker's report leaves behind.
  function RowAfter(run: Run, now: int, c: Callback): Run {
    match c
    case Release(note) => ReleasedRun(run, now, note)
    case SubmittedReport(job, train, validation) => SubmittedRun(run, now, job, train, validation)
    case SubmissionFailed(error) => ReleasedRun(run, now, Some(error))
    case Refusal(error) => FailedRun(run, now, error)
    case TrainingFailed(error) => FailedRun(run, now, error)
    case Completed(report) =>
      var ended := Unleased(run).(state := EndState(report), updatedAt := now, jobId := JobAfter(run, report),
                                  completion := Some(EndState(report)));
      if report.succeeded then
        ended.(error := None,
          trainExamples := if report.train.Some? then report.train.value else run.trainExamples,
          validationExamples := if report.validation.Some? then report.validation.value else run.validationExamples)
      else ended.(error := Some(if HasText(report.error) then report.error.value else FAILED_MESSAGE))
  }

  // A report is accepted only for a run that exists and is not finished,
  // except a completion that repeats the recorded outcome.
  predicate Reportable(run: Run, c: Callback) {
    (Terminal(run.state) ==> c.Completed? && run.state == EndState(c.report))
    && (c.SubmittedReport? ==> c.job != "")
  }

  lemma CallbackWritesOneRow(db: Db, now: int, key: RunKey, c: Callback)
    ensures var o := Callbacks(db, now, key, c);
            o.Applied? ==>
              key in db.runs && Reportable(db.runs[key], c)
              && o.db.runs == db.runs[key := RowAfter(db.runs[key], now, c)]
  {
    if c.Completed? { CompletionWritesOneRow(db, now, key, c.report); }
  }

  lemma CompletionWritesOneRow(db: Db, now: int, key: RunKey, report: Report)
    ensures var o := Callbacks(db, now, key, Completed(report));
            o.Applied? ==>
              key in db.runs && Reportable(db.runs[key], Completed(report))
              && o.db.runs == db.runs[key := RowAfter(db.runs[key], now, Completed(report))]
  {
    var o := Callbacks(db, now, key, Completed(report));
    if o.Applied? && report.succeeded && report.register {
      var run := db.runs[key];
      var row := RowAfter(run, now, Completed(report));
      assert row == o.db.runs[key];
    }
  }

  lemma ReportedRowIsSound(run: Run, now: int, c: Callback)
    requires Coherent(run) && Reportable(run, c)
    ensures Coherent(RowAfter(run, now, c)) && Forward(run, RowAfter(run, now, c))
  {
  }

  lemma CallbackKeeps(db: Db, now: int, key: RunKey, c: Callback)
    requires Sound(db.runs)
    ensures var next := After(db, Callbacks(db, now, key, c));
            Sound(next.runs) && Advanced(db.runs, next.runs)
  {
    var o := Callbacks(db, now, key, c);
    if o.Applied? {
      CallbackWritesOneRow(db, now, key, c);
      ReportedRowIsSound(db.runs[key], now, c);
      RewritingOneRow(db.runs, key, RowAfter(db.runs[key], now, c));
    }
  }

  lemma EnqueueKeeps(db: Db, now: int, key: RunKey, run: Run)
    requires Sound(db.runs) && Coherent(run)
    ensures var next := After(db, Enqueue(db, now, key, run));
            Sound(next.runs) && Advanced(db.runs, next.runs)
  {
  }

  lemma AdvancedTwice(a: RunTable, b: RunTable, c: RunTable)
    requires Advanced(a, b) && Advanced(b, c)
    ensures Advanced(a, c)
  {
    forall k | k in a ensures k in c && Forward(a[k], c[k]) { assert Forward(a[k], b[k]) && Forward(b[k], c[k]); }
  }

  lemma RetiringKeeps(runs: RunTable, now: int, key: RunKey)
    requires Sound(runs) && key in runs && runs[key].state != Succeeded
    ensures var retired := runs[key := FailedRun(runs[key], now, SUPERSEDED)];
            Sound(retired) && Advanced(runs, retired)
  {
    RewritingOneRow(runs, key, FailedRun(runs[key], now, SUPERSEDED));
  }

  lemma RetryKeeps(db: Db, now: int, course: string, newId: string, disk: Option<OnDisk>)
    requires Sound(db.runs)
    ensures var next := After(db, Retry(db, now, course, newId, disk));
            Sound(next.runs) && Advanced(db.runs, next.runs)
  {
    var o := Retry(db, now, course, newId, disk);
    if o.Applied? {
      var request := db.requests[course];
      var key := RunKey(course, request.currentRunId.value);
      var previous := db.runs[key];
      var retired := WithRun(db, key, FailedRun(previous, now, SUPERSEDED));
      var replacement := Replacement(previous, request, now, disk);
      RetiringKeeps(db.runs, now, key);
      EnqueueKeeps(retired, now, RunKey(course, newId), replacement);
      AdvancedTwice(db.runs, retired.runs, Enqueue(retired, now, RunKey(course, newId), replacement).db.runs);
    }
  }

  lemma RegisterKeeps(db: Db, now: int, course: string, run: Option<string>, asked: Option<string>, v: Models.Version,
      setCurrent: bool)
    requires Sound(db.runs)
    ensures var next := After(db, RegisterVersion(db, now, course, run, asked, v, setCurrent));
            Sound(next.runs) && Advanced(db.runs, next.runs)
  {
    var o := RegisterVersion(db, now, course, run, asked, v, setCurrent);
    if o.Applied? && run.Some? && v.status == Models.Ready && RunKey(course, run.value) in db.runs {
      var key := RunKey(course, run.value);
      var row := Unleased(db.runs[key]).(state := Succeeded, updatedAt := now);
      RewritingOneRow(db.runs, key, row);
      assert o.db.runs == db.runs[key := row];
    }
  }

  lemma ClaimKeeps(runs: RunTable, now: int, key: RunKey, owner: string, lease: int)
    requires Sound(runs) && key in runs && Claimable(runs[key], now) && owner != "" && lease > 0
    ensures Sound(runs[key := ClaimedRun(runs[key], now, owner, lease)])
    ensures Advanced(runs, runs[key := ClaimedRun(runs[key], now, owner, lease)])
  {
    RewritingOneRow(runs, key, ClaimedRun(runs[key], now, owner, lease));
  }

  lemma StepKeeps(db: Db, now: int, e: Event)
    requires Sound(db.runs)
    ensures Sound(Step(db, now, e).runs) && Advanced(db.runs, Step(db, now, e).runs)
  {
    match e
    case EnqueueRun(key, mode, ref, approved, train, validation, sha) =>
      EnqueueKeeps(db, now, key, NewRun(now, mode, ref, approved, train, validation, sha));
    case Claim(key, owner, lease, courses, locked) =>
      if owner != "" && lease > 0 && IsNext(db.runs, now, courses, locked, key) {
        ClaimKeeps(db.runs, now, key, owner, lease);
      }
    case Callback(key, callback) => CallbackKeeps(db, now, key, callback);
    case RetryRun(course, newId, disk) => RetryKeeps(db, now, course, newId, disk);
    case OpenRequest(_, _) =>
    case PatchRequest(_, _) =>
    case RegisterModel(course, run, asked, version, setCurrent) =>
      RegisterKeeps(db, now, course, run, asked, version, setCurrent);
    case WriteModels(_, _) =>
  }

  // Main result: from an empty queue, whatever the workers, administrators
  // and late reports do, no course ever has two outstanding runs, every lease
  // is whole or absent, and rows only move forward.
  lemma {:induction false} QueueIsSound(db: Db, es: seq<Timed>)
    requires Sound(db.runs)
    ensures Sound(Execute(db, es).runs) && Advanced(db.runs, Execute(db, es).runs)
    decreases |es|
  {
    if es != [] {
      var next := Step(db, es[0].now, es[0].event);
      StepKeeps(db, es[0].now, es[0].event);
      QueueIsSound(next, es[1..]);
      forall k | k in db.runs ensures k in Execute(db, es).runs && Forward(db.runs[k], Execute(db, es).runs[k]) {
        assert Forward(db.runs[k], next.runs[k]) && Forward(next.runs[k], Execute(next, es[1..]).runs[k]);
      }
    }
  }

  predicate HandsBack(e: Event, key: RunKey) {
    e.Callback? && e.key == key && (e.callback.Release? || e.callback.SubmissionFailed?)
  }

  // Apart from a claim and from being handed back, nothing happens to a row
  // that does not finish it or give it a job.
  lemma UntouchedFinishedOrSubmitted(db: Db, now: int, e: Event, key: RunKey)
    requires key in db.runs && !e.Claim? && !HandsBack(e, key)
    ensures key in Step(db, now, e).runs
    ensures var row := Step(db, now, e).runs[key];
            row == db.runs[key] || Terminal(row.state) || row.jobId.Some?
  {
    if e.Callback? { CallbackWritesOneRow(db, now, e.key, e.callback); }
    if e.RetryRun? { RetryRows(db, now, e.course, e.newId, e.disk, key); }
  }

  // A run that is reported as submitted has a job.
  predicate Jobbed(run: Run) { run.state == Submitted || run.state == Training ==> run.jobId.Some? }

  lemma StepKeepsJobbed(db: Db, now: int, e: Event, key: RunKey)
    requires key in db.runs ==> Jobbed(db.runs[key])
    ensures key in Step(db, now, e).runs ==> Jobbed(Step(db, now, e).runs[key])
  {
    if key !in db.runs {
      if key in Step(db, now, e).runs { NewRowsAreQueued(db, now, e, key); }
    } else if HandsBack(e, key) {
      CallbackWritesOneRow(db, now, e.key, e.callback);
    } else if !e.Claim? {
      UntouchedFinishedOrSubmitted(db, now, e, key);
    }
  }

  lemma NewRowsAreQueued(db: Db, now: int, e: Event, key: RunKey)
    requires key !in db.runs && key in Step(db, now, e).runs
    ensures Step(db, now, e).runs[key].state == Queued && Step(db, now, e).runs[key].jobId.None?
    ensures key.course in db.courses
  {
    if e.Callback? { CallbackWritesOneRow(db, now, e.key, e.callback); }
  }

  function JobNamed(db: Db, key: RunKey): Option<string> { if key in db.runs then db.runs[key].jobId else None }

  // A row's job id comes from a submission report or a completion of that run.
  lemma OnlyReportsNameJobs(db: Db, now: int, e: Event, key: RunKey)
    ensures var was, job := JobNamed(db, key), JobNamed(Step(db, now, e), key);
            job.Some? && job != was ==>
              e.Callback? && e.key == key
              && ((e.callback.SubmittedReport? && Some(e.callback.job) == job)
                  || (e.callback.Completed? && e.callback.report.jobId == job))
  {
    if key !in db.runs {
      if key in Step(db, now, e).runs { NewRowsAreQueued(db, now, e, key); }
    } else if e.Callback? {
      CallbackWritesOneRow(db, now, e.key, e.callback);
    } else {
      OtherEventsKeepJobs(db, now, e, key);
    }
  }

  lemma OtherEventsKeepJobs(db: Db, now: int, e: Event, key: RunKey)
    requires key in db.runs && !e.Callback?
    ensures key in Step(db, now, e).runs && Step(db, now, e).runs[key].jobId == db.runs[key].jobId
  {
    match e
    case RetryRun(course, newId, disk) => RetryKeepsJobs(db, now, course, newId, disk, key);
    case RegisterModel(course, run, asked, version, setCurrent) =>
      RegistrationKeepsJobs(db, now, course, run, asked, version, setCurrent);
    case _ =>
  }

  lemma RetryKeepsJobs(db: Db, now: int, course: string, newId: string, disk: Option<OnDisk>, key: RunKey)
    requires key in db.runs
    ensures var next := After(db, Retry(db, now, course, newId, disk));
            key in next.runs && next.runs[key].jobId == db.runs[key].jobId
  {
  }

  lemma StepKeepsCourses(db: Db, now: int, e: Event)
    ensures Step(db, now, e).courses == db.courses
  {
    match e
    case Callback(key, c) => ReportKeepsCourses(db, now, key, c);
    case RetryRun(course, newId, disk) => RetryKeepsCourses(db, now, course, newId, disk);
    case RegisterModel(course, run, asked, version, setCurrent) =>
      RegistrationKeepsCourses(db, now, course, run, asked, version, setCurrent);
    case _ =>
  }

  lemma ReportKeepsCourses(db: Db, now: int, key: RunKey, c: Callback)
    ensures After(db, Callbacks(db, now, key, c)).courses == db.courses
  {
  }

  lemma RetryKeepsCourses(db: Db, now: int, course: string, newId: string, disk: Option<OnDisk>)
    ensures After(db, Retry(db, now, course, newId, disk)).courses == db.courses
  {
  }

  lemma RegistrationKeepsCourses(db: Db, now: int, c: string, run: Option<string>, asked: Option<string>,
        v: Models.Version, setCurrent: bool)
    ensures After(db, RegisterVersion(db, now, c, run, asked, v, setCurrent)).courses == db.courses
  {
  }

  lemma RetryRows(db: Db, now: int, course: string, newId: string, disk: Option<OnDisk>, key: RunKey)
    requires key in db.runs
    ensures var next := After(db, Retry(db, now, course, newId, disk));
            key in next.runs && (next.runs[key] == db.runs[key] || Terminal(next.runs[key].state))
  {
  }

  // A lease ends; nothing but a claim renews or moves it.
  lemma OnlyAClaimMovesALease(db: Db, now: int, e: Event, key: RunKey)
    requires Sound(db.runs) && key in db.runs && !e.Claim?
    ensures key in Step(db, now, e).runs
    ensures Step(db, now, e).runs[key].state == Claimed ==> Step(db, now, e).runs[key] == db.runs[key]
  {
    StepKeeps(db, now, e);
    assert Forward(db.runs[key], Step(db, now, e).runs[key]);
    if HandsBack(e, key) { CallbackWritesOneRow(db, now, e.key, e.callback); }
    else { UntouchedFinishedOrSubmitted(db, now, e, key); }
  }

  // ------------------------------------------------------------------ //
  // `attempt` is the number of claims
  // ------------------------------------------------------------------ //

  ghost predicate ClaimLands(db: Db, t: Timed, key: RunKey) {
    t.event.Claim? && t.event.key == key && Step(db, t.now, t.event) != db
  }

  ghost function ClaimsOf(db: Db, es: seq<Timed>, key: RunKey): nat
    decreases |es|
  {
    if es == [] then 0
    else (if ClaimLands(db, es[0], key) then 1 else 0) + ClaimsOf(Step(db, es[0].now, es[0].event), es[1..], key)
  }

  ghost function AttemptsOf(db: Db, key: RunKey): nat { if key in db.runs then db.runs[key].attempt else 0 }

  lemma ClaimsCount(db: Db, now: int, e: Event, key: RunKey)
    requires e.Claim?
    ensures AttemptsOf(Step(db, now, e), key)
            == AttemptsOf(db, key) + if ClaimLands(db, At(now, e), key) then 1 else 0
  {
    if Step(db, now, e) != db {
      assert Step(db, now, e).runs[e.key].attempt == db.runs[e.key].attempt + 1;
    }
  }

  lemma RetryCountsNothing(db: Db, now: int, course: string, newId: string, disk: Option<OnDisk>, key: RunKey)
    ensures AttemptsOf(After(db, Retry(db, now, course, newId, disk)), key) == AttemptsOf(db, key)
  {
  }

  lemma RegistrationCountsNothing(db: Db, now: int, course: string, run: Option<string>, asked: Option<string>,
                                  v: Models.Version, setCurrent: bool, key: RunKey)
    ensures AttemptsOf(After(db, RegisterVersion(db, now, course, run, asked, v, setCurrent)), key)
            == AttemptsOf(db, key)
  {
  }

  lemma ReportCountsNothing(db: Db, now: int, k: RunKey, c: Callback, key: RunKey)
    ensures AttemptsOf(After(db, Callbacks(db, now, k, c)), key) == AttemptsOf(db, key)
  {
    CallbackWritesOneRow(db, now, k, c);
  }

  lemma AttemptsMoveWithClaims(db: Db, t: Timed, key: RunKey)
    ensures AttemptsOf(Step(db, t.now, t.event), key) == AttemptsOf(db, key) + (if ClaimLands(db, t, key) then 1 else 0)
  {
    match t.event
    case Claim(_, _, _, _, _) => ClaimsCount(db, t.now, t.event, key);
    case Callback(k, callback) => ReportCountsNothing(db, t.now, k, callback, key);
    case RetryRun(course, newId, disk) => RetryCountsNothing(db, t.now, course, newId, disk, key);
    case RegisterModel(course, run, asked, version, setCurrent) =>
      RegistrationCountsNothing(db, t.now, course, run, asked, version, setCurrent, key);
    case _ =>
  }

  lemma {:induction false} AttemptCountsClaims(db: Db, es: seq<Timed>, key: RunKey)
    ensures AttemptsOf(Execute(db, es), key) == AttemptsOf(db, key) + ClaimsOf(db, es, key)
    decreases |es|
  {
    if es != [] {
      AttemptsMoveWithClaims(db, es[0], key);
      AttemptCountsClaims(Step(db, es[0].now, es[0].event), es[1..], key);
    }
  }

  // ------------------------------------------------------------------ //
  // Retry
  // ------------------------------------------------------------------ //

  // A run whose job may be running is not retired underneath it: for six hours
  // after its last word a retry is refused and changes nothing, and after them
  // silence is no reason to refuse any more.
  lemma LiveJobIsNotRetired(db: Db, now: int, course: string, newId: string, disk: Option<OnDisk>)
    requires course in db.requests && db.requests[course].currentRunId.Some?
    requires var key := RunKey(course, db.requests[course].currentRunId.value);
             key in db.runs && (db.runs[key].state == Submitted || db.runs[key].state == Training)
             && CarriedRef(db.runs[key], db.requests[course]) != ""
    ensures var run := db.runs[RunKey(course, db.requests[course].currentRunId.value)];
            var o := Retry(db, now, course, newId, disk);
            (now - run.updatedAt < 21_600_000_000 ==> o == Refused(409) && After(db, o) == db)
            && (now - run.updatedAt >= 21_600_000_000 ==>
                  Sound(db.runs) && course in db.courses && RunKey(course, newId) !in db.runs ==> o.Applied?)
  {
  }

  // A run that waits for a worker is left waiting, unless a worker put it back
  // with a reason or its pinned data is no longer the data on disk.
  lemma WaitingRunIsNotRetired(run: Run, now: int, current: Option<string>)
    requires run.state == Queued
    ensures Retryable(run, now, current) <==>
              (run.error.Some? && |run.error.value| > 0)
              || (run.datasetSha256.Some? && current.Some? && |run.datasetSha256.value| > 0 && |current.value| > 0
                  && run.datasetSha256.value != current.value)
  {
  }

  // On any claimed row the retry rule and the claim rule agree exactly when
  // the lease is still held by both readings or no job stands in the way.
  lemma RetryVersusClaim(run: Run, now: int, current: Option<string>)
    requires run.state == Claimed
    ensures (Retryable(run, now, current) <==> Claimable(run, now)) <==>
              (run.jobId.None? && (Leased(run) || run.claimExpiresAt.None? || run.claimExpiresAt.value <= now))
              || (run.jobId.Some? && Leased(run) && run.claimExpiresAt.value > now)
  {
  }

  // So on every reachable queue a claimed run may be retried exactly when a
  // worker could retake it at that instant.
  lemma RetryAgreesWithClaiming(courses: set<string>, es: seq<Timed>, key: RunKey, now: int, current: Option<string>)
    ensures var runs := Execute(NewDatabase(courses), es).runs;
            key in runs && runs[key].state == Claimed ==>
              (Retryable(runs[key], now, current) <==> Claimable(runs[key], now))
  {
    QueueIsSound(NewDatabase(courses), es);
    var runs := Execute(NewDatabase(courses), es).runs;
    if key in runs && runs[key].state == Claimed { RetryVersusClaim(runs[key], now, current); }
  }

  // The worker's own reading of a row as it is reported to it, where a claim
  // is shown only when all three of its columns are set (`is_claimable` in
  // `scripts/lib/training_queue.py`).
  predicate LooksClaimable(run: Run, now: int) {
    !HasText(run.jobId)
    && (run.state == Queued || (run.state == Claimed && (!Leased(run) || run.claimExpiresAt.value <= now)))
  }

  // It differs from the backend's exactly on a blank job id and on half a
  // lease that has not run out, so never on a reachable queue.
  lemma WorkerRuleDiffersIff(run: Run, now: int)
    ensures LooksClaimable(run, now) != Claimable(run, now) <==>
              (run.jobId == Some("") && LooksClaimable(run, now))
              || (run.jobId.None? && run.state == Claimed && !Leased(run) && run.claimExpiresAt.Some?
                  && run.claimExpiresAt.value > now)
  {
  }

  lemma WorkerSeesWhatItMayClaim(courses: set<string>, es: seq<Timed>, key: RunKey, now: int)
    ensures var runs := Execute(NewDatabase(courses), es).runs;
            key in runs ==> (LooksClaimable(runs[key], now) <==> Claimable(runs[key], now))
  {
    QueueIsSound(NewDatabase(courses), es);
    var runs := Execute(NewDatabase(courses), es).runs;
    if key in runs { WorkerRuleDiffersIff(runs[key], now); }
  }

  // A worker can take it or an administrator can retire it.
  predicate Movable(run: Run, t: int, current: Option<string>) { Claimable(run, t) || Retryable(run, t, current) }

  function Later(a: int, b: int): int { if a < b then b else a }

  // Left alone, every unfinished run becomes movable again, at the latest when
  // its lease has run out or it has been silent for six hours, with one
  // exception: a run on the queue that already has a job, no error and the
  // data it was pinned to.
  lemma MovableInTimeIff(run: Run, now: int, current: Option<string>)
    requires Coherent(run)
    ensures (exists t :: now <= t && Movable(run, t, current)) <==>
              run.state != Succeeded && !(run.state == Queued && run.jobId.Some? && !QueuedRunIsStale(run, current))
    ensures run.state != Succeeded && !(run.state == Queued && run.jobId.Some? && !QueuedRunIsStale(run, current)) ==>
              var until := if Leased(run) then run.claimExpiresAt.value else run.updatedAt + STALE_AFTER;
              Movable(run, Later(now, until), current)
  {
    var t := Later(now, if Leased(run) then run.claimExpiresAt.value else run.updatedAt + STALE_AFTER);
    assert now <= t;
    if run.state != Succeeded && !(run.state == Queued && run.jobId.Some? && !QueuedRunIsStale(run, current)) {
      assert Movable(run, t, current);
    }
  }

  // A run handed back after its job was recorded is stuck: no worker can take
  // it at any time, and an administrator can retire it only if it carries an
  // error or its data has changed.
  lemma QueuedWithAJobIsStuck(run: Run, now: int, current: Option<string>)
    requires run.state == Queued && run.jobId.Some?
    ensures !Claimable(run, now)
    ensures Retryable(run, now, current) <==> QueuedRunIsStale(run, current)
  {
  }

  // A release without a body leaves a submitted run in just that state; a
  // worker's own release always gives a reason, which lets it be retired.
  lemma ReleasingASubmittedRunSticksIt(db: Db, now: int, key: RunKey, note: Option<string>, t: int,
        current: Option<string>)
    requires key in db.runs && db.runs[key].state == Submitted && db.runs[key].jobId.Some?
    ensures var o := Callbacks(db, now, key, Release(note));
            o.Applied? && key in o.db.runs
            && var row := o.db.runs[key];
               row.state == Queued && row.jobId == db.runs[key].jobId && !Claimable(row, t)
               && (Retryable(row, t, current) <==>
                     HasText(if note.Some? then note else db.runs[key].error)
                     || (HasText(row.datasetSha256) && HasText(current) && row.datasetSha256 != current))
  {
    CallbackWritesOneRow(db, now, key, Release(note));
    QueuedWithAJobIsStuck(RowAfter(db.runs[key], now, Release(note)), t, current);
  }

  // From an empty queue: queued, claimed, submitted, released.
  lemma StuckRunIsReachable(course: string, id: string) returns (es: seq<Timed>)
    ensures var runs := Execute(NewDatabase({course}), es).runs;
            var key := RunKey(course, id);
            key in runs && runs[key].state == Queued && runs[key].jobId == Some("1")
            && forall t :: !Claimable(runs[key], t) && !Retryable(runs[key], t, None)
  {
    var key := RunKey(course, id);
    var t0 := At(0, EnqueueRun(key, Full, "exports", 1, 1, 1, None));
    var t1 := At(0, Claim(key, "worker", 1, None, {}));
    var t2 := At(0, Callback(key, SubmittedReport("1", 1, 1)));
    var t3 := At(0, Callback(key, Release(None)));
    es := [t0, t1, t2, t3];
    var a := Step(NewDatabase({course}), 0, t0.event);
    assert a.runs == map[key := NewRun(0, Full, "exports", 1, 1, 1, None)];
    LeqTotal(id, id);
    assert IsNext(a.runs, 0, None, {}, key);
    var b := Step(a, 0, t1.event);
    assert b.runs == map[key := ClaimedRun(a.runs[key], 0, "worker", 1)] && b.requests == map[];
    var c := Step(b, 0, t2.event);
    CallbackWritesOneRow(b, 0, key, SubmittedReport("1", 1, 1));
    assert c.runs == map[key := SubmittedRun(b.runs[key], 0, "1", 1, 1)];
    var d := Step(c, 0, t3.event);
    CallbackWritesOneRow(c, 0, key, Release(None));
    assert d.runs == map[key := ReleasedRun(c.runs[key], 0, None)];
    assert es[1..] == [t1, t2, t3] && es[1..][1..] == [t2, t3] && es[1..][1..][1..] == [t3] && [t3][1..] == [];
    assert Execute(NewDatabase({course}), es) == Execute(a, es[1..]) == Execute(b, es[1..][1..]);
    assert Execute(b, [t2, t3]) == Execute(c, [t3]) == Execute(d, []);
  }

  ghost predicate OthersActive(runs: RunTable, key: RunKey) {
    exists k :: k in runs && k != key && k.course == key.course && !Terminal(runs[k].state)
  }

  // Exactly when a retry goes through, for a course known to the backend.
  lemma RetryAcceptedIff(db: Db, now: int, course: string, newId: string, disk: Option<OnDisk>)
    requires course in db.courses && RunKey(course, newId) !in db.runs
    requires course in db.requests && db.requests[course].currentRunId.Some?
    requires RunKey(course, db.requests[course].currentRunId.value) in db.runs
    ensures var request := db.requests[course];
            var key := RunKey(course, request.currentRunId.value);
            Retry(db, now, course, newId, disk).Applied? <==>
              Retryable(db.runs[key], now, if disk.Some? then Some(disk.value.sha256) else None)
              && CarriedRef(db.runs[key], request) != ""
              && !OthersActive(db.runs, key)
  {
    var request := db.requests[course];
    var key := RunKey(course, request.currentRunId.value);
    var retired := WithRun(db, key, FailedRun(db.runs[key], now, SUPERSEDED));
    if OthersActive(db.runs, key) {
      var k :| k in db.runs && k != key && k.course == key.course && !Terminal(db.runs[k].state);
      assert k in retired.runs && !Terminal(retired.runs[k].state);
    } else {
      forall k | k in retired.runs && k.course == course ensures Terminal(retired.runs[k].state) {
        assert k != key ==> k in db.runs;
      }
    }
  }

  // Superseding a course's one outstanding run always lets its replacement
  // in: the replacement is the course's only outstanding run, a worker can
  // take it at once, and the request has moved to it.
  lemma RetryReplacesTheOutstandingRun(db: Db, now: int, course: string, newId: string, disk: Option<OnDisk>)
    requires Sound(db.runs) && course in db.courses && RunKey(course, newId) !in db.runs
    requires course in db.requests && db.requests[course].currentRunId.Some?
    requires var key := RunKey(course, db.requests[course].currentRunId.value);
             key in db.runs && !Terminal(db.runs[key].state) && CarriedRef(db.runs[key], db.requests[course]) != ""
             && Retryable(db.runs[key], now, if disk.Some? then Some(disk.value.sha256) else None)
    ensures var key := RunKey(course, db.requests[course].currentRunId.value);
            var queued := RunKey(course, newId);
            var o := Retry(db, now, course, newId, disk);
            o.Applied? && queued in o.db.runs && key in o.db.runs
            && (forall k :: k in o.db.runs && k.course == course && !Terminal(o.db.runs[k].state) ==> k == queued)
            && Claimable(o.db.runs[queued], now)
            && o.db.runs[queued].datasetSha256 == (if disk.Some? then Some(disk.value.sha256) else None)
            && o.db.runs[queued].mode == db.runs[key].mode && o.db.runs[queued].attempt == 0
            && o.db.runs[key].state == Failed && o.db.runs[key].error == Some(SUPERSEDED)
            && o.db.runs[key].jobId == db.runs[key].jobId && o.db.runs[key].attempt == db.runs[key].attempt
            && o.db.requests[course].currentRunId == Some(newId) && o.db.requests[course].training == None
  {
    var key := RunKey(course, db.requests[course].currentRunId.value);
    RetryAcceptedIff(db, now, course, newId, disk);
    if OthersActive(db.runs, key) { assert false; }
    var o := Retry(db, now, course, newId, disk);
    RetryKeeps(db, now, course, newId, disk);
  }

  // ------------------------------------------------------------------ //
  // Who may move a request
  // ------------------------------------------------------------------ //

  // A report touches no request but its own course's, and that one only
  // while the run owns it; then the run owns it afterwards too.
  lemma ReportsMoveOnlyTheirOwnRequest(db: Db, now: int, key: RunKey, c: Callback)
    ensures var next := After(db, Callbacks(db, now, key, c));
            next.requests.Keys == db.requests.Keys
            && (forall course :: course in db.requests && course != key.course ==>
                next.requests[course] == db.requests[course])
            && (key.course in db.requests && next.requests[key.course] != db.requests[key.course] ==>
                  OwnsRequest(db, key) && next.requests[key.course].currentRunId == Some(key.id))
  {
    if c.Completed? { CompletionRequests(db, now, key, c.report); }
  }

  lemma CompletionRequests(db: Db, now: int, key: RunKey, report: Report)
    ensures var next := After(db, Callbacks(db, now, key, Completed(report)));
            next.requests.Keys == db.requests.Keys
            && (forall course :: course in db.requests && course != key.course ==>
                next.requests[course] == db.requests[course])
            && (key.course in db.requests && next.requests[key.course] != db.requests[key.course] ==>
                  OwnsRequest(db, key) && next.requests[key.course].currentRunId == Some(key.id))
  {
  }

  predicate Malformed(c: Callback) {
    (c.SubmittedReport? && c.job == "") || (c.Completed? && !Acceptable(c.report))
  }

  // A well-formed report that is refused is refused for good, with a status
  // the worker stops retrying on: 404 for a run that does not exist, 409 for
  // one that is retired, finished, or at odds with what it says.
  lemma RefusalsAreFinal(db: Db, now: int, key: RunKey, c: Callback)
    requires key in db.runs ==> key.course in db.courses
    ensures var o := Callbacks(db, now, key, c);
            (key !in db.runs ==> o.Refused?)
            && (o.Refused? && !Malformed(c) ==> o.status == if key in db.runs then 409 else 404)
            && (o.Refused? && o.status == 422 ==> Malformed(c))
  {
  }

  // What an accepted report tells the professor, while the run owns the
  // request: `training` comes with the job, `failed` with a message, `ready`
  // with a registered version, and nothing else moves the status.
  lemma RequestFollowsReport(db: Db, now: int, key: RunKey, c: Callback)
    requires Callbacks(db, now, key, c).Applied? && key.course in db.requests && OwnsRequest(db, key)
    ensures key.course in Callbacks(db, now, key, c).db.requests
    ensures var r, was := Callbacks(db, now, key, c).db.requests[key.course], db.requests[key.course];
            match c
            case Release(_) => r == was
            case SubmittedReport(job, _, _) =>
              r.status == InTraining && r.training.Some? && r.training.value.jobId == job && r.launchError == None
              && r.failureMessage == was.failureMessage
            case SubmissionFailed(error) => r.status == was.status && r.training == was.training
                && r.launchError == Some(error)
            case Refusal(error) => r.status == was.status && r.training == was.training && r.launchError == Some(error)
            case TrainingFailed(error) => r.status == RequestFailed && r.failureMessage.Some?
                && r.launchError == Some(error) && r.training == was.training
            case Completed(report) =>
              r.training == was.training
              && (!report.succeeded ==> r.status == RequestFailed && r.failureMessage.Some?)
              && (Registers(report) ==> r.status == ReadyToServe && r.failureMessage == None && r.launchError == None)
              && (report.succeeded && !report.register ==> r == was)
  {
  }

  // A request that names a job names the job of its own run, and it says
  // `training` only when it names one.
  ghost predicate Truthful(db: Db, course: string) {
    course in db.requests ==>
      var r := db.requests[course];
      (r.status == InTraining ==> r.training.Some?)
      && (r.training.Some? ==>
            r.training.value.jobId != "" && r.currentRunId.Some? && RunKey(course, r.currentRunId.value) in db.runs
            && db.runs[RunKey(course, r.currentRunId.value)].jobId == Some(r.training.value.jobId))
  }

  lemma ReportsAreTruthful(db: Db, now: int, key: RunKey, c: Callback, course: string)
    requires Truthful(db, course)
    ensures Truthful(After(db, Callbacks(db, now, key, c)), course)
  {
    var o := Callbacks(db, now, key, c);
    if o.Applied? {
      CallbackWritesOneRow(db, now, key, c);
      ReportsMoveOnlyTheirOwnRequest(db, now, key, c);
      if course == key.course && course in db.requests && OwnsRequest(db, key) {
        RequestFollowsReport(db, now, key, c);
        OwnerAfterReport(db, now, key, c);
      }
    }
  }

  lemma OwnerAfterReport(db: Db, now: int, key: RunKey, c: Callback)
    requires Callbacks(db, now, key, c).Applied? && key.course in db.requests && OwnsRequest(db, key)
    ensures key.course in Callbacks(db, now, key, c).db.requests
    ensures var r := Callbacks(db, now, key, c).db.requests[key.course];
            r == db.requests[key.course] || r.currentRunId == Some(key.id)
  {
    if c.Completed? { CompletionRequests(db, now, key, c.report); }
  }

  lemma RetryIsTruthful(db: Db, now: int, c: string, newId: string, disk: Option<OnDisk>, course: string)
    requires Truthful(db, course)
    ensures Truthful(After(db, Retry(db, now, c, newId, disk)), course)
  {
  }

  lemma RegistrationIsTruthful(db: Db, now: int, c: string, run: Option<string>, asked: Option<string>,
      v: Models.Version, setCurrent: bool, course: string)
    requires Truthful(db, course)
    ensures Truthful(After(db, RegisterVersion(db, now, c, run, asked, v, setCurrent)), course)
  {
    RegistrationKeepsJobs(db, now, c, run, asked, v, setCurrent);
    if course in db.requests {
      RegistrationKeepsTraining(db, now, c, run, asked, v, setCurrent, course);
    } else {
      assert course !in After(db, RegisterVersion(db, now, c, run, asked, v, setCurrent)).requests;
    }
  }

  lemma RegistrationKeepsJobs(db: Db, now: int, c: string, run: Option<string>, asked: Option<string>,
        v: Models.Version, setCurrent: bool)
    ensures var next := After(db, RegisterVersion(db, now, c, run, asked, v, setCurrent));
            forall key :: key in db.runs ==> key in next.runs && next.runs[key].jobId == db.runs[key].jobId
  {
  }

  lemma RegistrationKeepsTraining(db: Db, now: int, c: string, run: Option<string>, asked: Option<string>,
        v: Models.Version, setCurrent: bool, course: string)
    requires course in db.requests
    ensures var next := After(db, RegisterVersion(db, now, c, run, asked, v, setCurrent));
            course in next.requests
            && var (was, r) := (db.requests[course], next.requests[course]);
               r.training == was.training && (r.status == was.status || r.status == ReadyToServe)
               && (was.currentRunId.None? || r.currentRunId == was.currentRunId)
  {
  }

  lemma StepIsTruthful(db: Db, now: int, e: Event, course: string)
    requires Truthful(db, course) && !e.PatchRequest?
    ensures Truthful(Step(db, now, e), course)
  {
    match e
    case Callback(key, c) => ReportsAreTruthful(db, now, key, c, course);
    case RetryRun(c, newId, disk) => RetryIsTruthful(db, now, c, newId, disk, course);
    case RegisterModel(c, run, asked, version, setCurrent) =>
      RegistrationIsTruthful(db, now, c, run, asked, version, setCurrent, course);
    case _ =>
  }

  // The administrator's own edits of the request are honest too; the one the
  // application makes when it queues a run names no job and says `preparing`.
  ghost predicate HonestPatches(db: Db, es: seq<Timed>, course: string)
    decreases |es|
  {
    es == []
    || ((es[0].event.PatchRequest? ==> Truthful(Step(db, es[0].now, es[0].event), course))
        && HonestPatches(Step(db, es[0].now, es[0].event), es[1..], course))
  }

  // Main result: over every history, a professor is told their model is
  // training only about a job that exists, the one their request's own run
  // was submitted as.
  lemma {:induction false} TrainingMeansAJob(db: Db, es: seq<Timed>, course: string)
    requires Truthful(db, course) && HonestPatches(db, es, course)
    ensures Truthful(Execute(db, es), course)
    decreases |es|
  {
    if es != [] {
      if !es[0].event.PatchRequest? { StepIsTruthful(db, es[0].now, es[0].event, course); }
      TrainingMeansAJob(Step(db, es[0].now, es[0].event), es[1..], course);
    }
  }

  // A retired run: finished as failed, while the request points elsewhere.
  ghost predicate Retired(db: Db, key: RunKey, owner: string) {
    key in db.runs && db.runs[key].state == Failed && key.id != owner
    && key.course in db.requests && db.requests[key.course].currentRunId == Some(owner)
  }

  // Steps that leave the course's pointer to the workers.
  predicate LeavesPointer(e: Event, course: string) {
    match e
    case PatchRequest(c, _) => c != course
    case OpenRequest(c, _) => c != course
    case RetryRun(c, _, _) => c != course
    case _ => true
  }

  // Nothing a retired run's worker can send, nor a registration naming it, is
  // applied at all.
  lemma RetiredRunIsRefused(db: Db, now: int, key: RunKey, owner: string, c: Callback, asked: Option<string>,
      v: Models.Version, setCurrent: bool)
    requires Retired(db, key, owner)
    ensures Callbacks(db, now, key, c).Refused?
    ensures RegisterVersion(db, now, key.course, Some(key.id), asked, v, setCurrent).Refused?
  {
  }

  lemma RetiredThroughReport(db: Db, now: int, k: RunKey, c: Callback, key: RunKey, owner: string)
    requires Retired(db, key, owner)
    ensures var next := After(db, Callbacks(db, now, k, c));
            Retired(next, key, owner) && next.runs[key] == db.runs[key]
  {
    var o := Callbacks(db, now, k, c);
    if k == key {
      RetiredRunIsRefused(db, now, key, owner, c, None, AnyVersion, false);
    } else if o.Applied? {
      ReportsMoveOnlyTheirOwnRequest(db, now, k, c);
      CallbackWritesOneRow(db, now, k, c);
    }
  }

  lemma RetiredThroughRegistration(db: Db, now: int, course: string, run: Option<string>, asked: Option<string>,
        v: Models.Version, setCurrent: bool, key: RunKey, owner: string)
    requires Retired(db, key, owner)
    ensures var next := After(db, RegisterVersion(db, now, course, run, asked, v, setCurrent));
            Retired(next, key, owner) && next.runs[key] == db.runs[key]
  {
    var o := RegisterVersion(db, now, course, run, asked, v, setCurrent);
    if o.Applied? {
      RegistrationKeepsOtherRuns(db, now, course, run, asked, v, setCurrent, key);
      RegistrationKeepsPointer(db, now, course, run, asked, v, setCurrent, key.course);
      if run.Some? && course == key.course { assert run.value == owner; }
    }
  }

  lemma RegistrationKeepsOtherRuns(db: Db, now: int, course: string, run: Option<string>, asked: Option<string>,
        v: Models.Version, setCurrent: bool, key: RunKey)
    requires key in db.runs && (run.None? || key != RunKey(course, run.value))
    ensures var next := After(db, RegisterVersion(db, now, course, run, asked, v, setCurrent));
            key in next.runs && next.runs[key] == db.runs[key]
  {
  }

  // A request somebody owns is still theirs.
  lemma RegistrationKeepsPointer(db: Db, now: int, c: string, run: Option<string>, asked: Option<string>,
        v: Models.Version, setCurrent: bool, course: string)
    requires course in db.requests && db.requests[course].currentRunId.Some?
    ensures var next := After(db, RegisterVersion(db, now, c, run, asked, v, setCurrent));
            course in next.requests && next.requests[course].currentRunId == db.requests[course].currentRunId
  {
  }

  lemma RetiredStep(db: Db, now: int, e: Event, key: RunKey, owner: string)
    requires Retired(db, key, owner) && LeavesPointer(e, key.course)
    ensures Retired(Step(db, now, e), key, owner) && Step(db, now, e).runs[key] == db.runs[key]
  {
    match e
    case Callback(k, c) => RetiredThroughReport(db, now, k, c, key, owner);
    case RegisterModel(course, run, asked, version, setCurrent) =>
      RetiredThroughRegistration(db, now, course, run, asked, version, setCurrent, key, owner);
    case _ =>
  }

  const AnyVersion := Models.Version("", 0, Models.Ready, Models.Offline, "", 0, None)

  // Main result: from the retry on, for as long as the replacement owns the
  // request, the retired run's row stays exactly as it was retired, through
  // every interleaving, and its late reports change nothing anywhere.
  lemma {:induction false} RetiredRunIsInert(db: Db, es: seq<Timed>, key: RunKey, owner: string)
    requires Retired(db, key, owner) && forall i :: 0 <= i < |es| ==> LeavesPointer(es[i].event, key.course)
    ensures Retired(Execute(db, es), key, owner) && Execute(db, es).runs[key] == db.runs[key]
    ensures forall now, c :: Callbacks(Execute(db, es), now, key, c).Refused?
    decreases |es|
  {
    if es == [] {
      forall now, c ensures Callbacks(db, now, key, c).Refused? {
        RetiredRunIsRefused(db, now, key, owner, c, None, AnyVersion, false);
      }
    } else {
      RetiredStep(db, es[0].now, es[0].event, key, owner);
      RetiredRunIsInert(Step(db, es[0].now, es[0].event), es[1..], key, owner);
    }
  }

  // The protection ends with the pointer. A repeated failure report for an
  // already failed run is let through exactly when the request names that run
  // or names none.
  lemma LateFailureMovesRequestIff(db: Db, now: int, key: RunKey, report: Report)
    requires key in db.runs && db.runs[key].state == Failed && key.course in db.requests
    requires !report.succeeded && (report.jobId.None? || report.jobId == db.runs[key].jobId)
    ensures var next := After(db, Callbacks(db, now, key, Completed(report)));
            (next.requests[key.course].status == RequestFailed && next.requests[key.course].currentRunId == Some(key.id)
             && next.runs[key].completion == Some(Failed) && next.runs[key].updatedAt == now)
            || next == db
    ensures Callbacks(db, now, key, Completed(report)).Applied? <==>
              Acceptable(report) && db.requests[key.course].currentRunId in {None, Some(key.id)}
  {
  }

  // Opening a new request clears the pointer, so a report that was still
  // queued for a run retired long ago fails the request a professor has just
  // opened and makes the retired run its current one.
  lemma RetiredRunTakesAFreshRequest(db: Db, t0: int, t1: int, key: RunKey, owner: string, report: Report)
    requires Retired(db, key, owner) && key.course in db.courses && !Outstanding(db.requests[key.course].status)
    requires !report.succeeded && Acceptable(report) && (report.jobId.None? || report.jobId == db.runs[key].jobId)
    ensures var asked := Step(db, t0, OpenRequest(key.course, 0));
            var after := Step(asked, t1, Callback(key, Completed(report)));
            asked.requests[key.course].status == Requested
            && after.requests[key.course].status == RequestFailed
            && after.requests[key.course].currentRunId == Some(key.id)
  {
    LateFailureMovesRequestIff(Step(db, t0, OpenRequest(key.course, 0)), t1, key, report);
  }

  // ------------------------------------------------------------------ //
  // One version per run
  // ------------------------------------------------------------------ //

  ghost predicate OneVersionPerRun(r: Models.Registry) {
    forall run, a, b :: RegisteredAs(r, run, a) && RegisteredAs(r, run, b) ==> a == b
  }

  lemma KeyForRunIsFree(r: Models.Registry, run: Option<string>, asked: Option<string>, v: Models.Version,
        setCurrent: bool)
    requires OneVersionPerRun(r) && KeyForRun(r, run, asked).Some?
    ensures OneVersionPerRun(Models.Upserted(r, KeyForRun(r, run, asked).value, v.(runId := run), setCurrent))
  {
    var name := KeyForRun(r, run, asked).value;
    forall n | run.Some? && RegisteredAs(r, run.value, n) ensures n == name { assert n in Registrations(r, run); }
    var after := Models.Upserted(r, name, v.(runId := run), setCurrent);
    forall x, a, b | RegisteredAs(after, x, a) && RegisteredAs(after, x, b) ensures a == b {
      if a != name { assert RegisteredAs(r, x, a); }
      if b != name { assert RegisteredAs(r, x, b); }
    }
  }

  ghost predicate OneVersionPerRunEverywhere(db: Db) {
    forall course :: OneVersionPerRun(ModelsOf(db, course))
  }

  lemma RegisterKeepsOneVersion(db: Db, now: int, course: string, run: Option<string>, asked: Option<string>,
      v: Models.Version, setCurrent: bool)
    requires OneVersionPerRunEverywhere(db)
    ensures OneVersionPerRunEverywhere(After(db, RegisterVersion(db, now, course, run, asked, v, setCurrent)))
  {
    var o := RegisterVersion(db, now, course, run, asked, v, setCurrent);
    if o.Applied? {
      assert OneVersionPerRun(ModelsOf(db, course));
      KeyForRunIsFree(ModelsOf(db, course), run, asked, v, setCurrent);
      forall c ensures OneVersionPerRun(ModelsOf(o.db, c)) {
        if c != course { assert ModelsOf(o.db, c) == ModelsOf(db, c); }
      }
    }
  }

  lemma WritesKeepOneVersion(r: Models.Registry, now: int, w: Models.Write)
    requires OneVersionPerRun(r) && !w.Register?
    ensures OneVersionPerRun(Models.Apply(r, now, w))
  {
    var after := Models.Apply(r, now, w);
    forall run, a, b | RegisteredAs(after, run, a) && RegisteredAs(after, run, b) ensures a == b {
      assert RegisteredAs(r, run, a) && RegisteredAs(r, run, b);
    }
  }

  lemma SameModelsSameVersions(db: Db, next: Db)
    requires OneVersionPerRunEverywhere(db) && next.models == db.models
    ensures OneVersionPerRunEverywhere(next)
  {
    forall x ensures OneVersionPerRun(ModelsOf(next, x)) { assert ModelsOf(next, x) == ModelsOf(db, x); }
  }

  lemma WriteKeepsOneVersion(db: Db, now: int, course: string, write: Models.Write)
    requires OneVersionPerRunEverywhere(db) && !write.Register?
    ensures var models := db.models[course := Models.Apply(ModelsOf(db, course), now, write)];
            OneVersionPerRunEverywhere(db.(models := models))
  {
    var next := db.(models := db.models[course := Models.Apply(ModelsOf(db, course), now, write)]);
    WritesKeepOneVersion(ModelsOf(db, course), now, write);
    forall x ensures OneVersionPerRun(ModelsOf(next, x)) {
      if x != course { assert ModelsOf(next, x) == ModelsOf(db, x); }
    }
  }

  lemma StepKeepsOneVersion(db: Db, now: int, e: Event)
    requires OneVersionPerRunEverywhere(db)
    ensures OneVersionPerRunEverywhere(Step(db, now, e))
  {
    match e
    case Callback(key, Completed(report)) => CompletionKeepsOneVersion(db, now, key, report);
    case RegisterModel(course, run, asked, version, setCurrent) =>
      if version.deployment != Models.Online {
        RegisterKeepsOneVersion(db, now, course, run, asked, version, setCurrent);
      }
    case WriteModels(course, write) =>
      if !write.Register? { WriteKeepsOneVersion(db, now, course, write); }
    case _ => SameModelsSameVersions(db, Step(db, now, e));
  }

  lemma CompletionKeepsOneVersion(db: Db, now: int, key: RunKey, report: Report)
    requires OneVersionPerRunEverywhere(db)
    ensures OneVersionPerRunEverywhere(After(db, Callbacks(db, now, key, Completed(report))))
  {
    var o := Callbacks(db, now, key, Completed(report));
    if o.Applied? && report.succeeded && report.register {
      CompletionIsRegistration(db, now, key, report);
      var (base, v) := RegistrationOf(db, now, key, report);
      forall x ensures OneVersionPerRun(ModelsOf(base, x)) { assert ModelsOf(base, x) == ModelsOf(db, x); }
      RegisterKeepsOneVersion(base, now, key.course, Some(key.id), report.version, v, report.setCurrent);
    } else {
      var next := After(db, o);
      assert next.models == db.models;
      forall x ensures OneVersionPerRun(ModelsOf(next, x)) { assert ModelsOf(next, x) == ModelsOf(db, x); }
    }
  }

  // The registration half of a successful completion.
  function RegistrationOf(db: Db, now: int, key: RunKey, report: Report): (Db, Models.Version)
    requires key in db.runs
  {
    var run := db.runs[key];
    var ended := Unleased(run).(updatedAt := now, jobId := JobAfter(run, report),
                                completion := Some(EndState(report)));
    var done := ended.(error := None,
      trainExamples := if report.train.Some? then report.train.value else run.trainExamples,
      validationExamples := if report.validation.Some? then report.validation.value else run.validationExamples);
    var version := Models.Version(report.baseModel, done.trainExamples, Models.Ready, Models.Offline,
                                  report.artifactRef, now, Some(key.id));
    (WithRun(db, key, done), version)
  }

  lemma CompletionIsRegistration(db: Db, now: int, key: RunKey, report: Report)
    requires report.succeeded && report.register && Callbacks(db, now, key, Completed(report)).Applied?
    ensures key in db.runs
    ensures var (base, v) := RegistrationOf(db, now, key, report);
            Callbacks(db, now, key, Completed(report)) ==
              RegisterVersion(base, now, key.course, Some(key.id), report.version, v, report.setCurrent)
  {
  }

  // However often completions are redelivered and whatever is registered by
  // hand, one training run never stands for two versions of a model.
  lemma {:induction false} OneRunOneVersion(db: Db, es: seq<Timed>)
    requires OneVersionPerRunEverywhere(db)
    ensures OneVersionPerRunEverywhere(Execute(db, es))
    decreases |es|
  {
    if es != [] {
      StepKeepsOneVersion(db, es[0].now, es[0].event);
      OneRunOneVersion(Step(db, es[0].now, es[0].event), es[1..]);
    }
  }

  // A success that is to be registered is recorded with its registration or
  // not at all: exactly when the course is known and the run is not already
  // registered under another name than the one asked for.
  lemma CompletionRecordedIff(db: Db, now: int, key: RunKey, report: Report)
    requires key in db.runs && OwnsRequest(db, key) && Registers(report) && Acceptable(report)
    requires !Terminal(db.runs[key].state) || db.runs[key].state == Succeeded
    requires !HasText(db.runs[key].jobId) || !HasText(report.jobId) || report.jobId == db.runs[key].jobId
    requires OneVersionPerRun(ModelsOf(db, key.course))
    ensures var o := Callbacks(db, now, key, Completed(report));
            (o.Applied? <==>
               key.course in db.courses
               && forall name :: RegisteredAs(ModelsOf(db, key.course), key.id, name) && report.version.Some? ==>
                    report.version.value == name)
            && (o.Applied? ==>
                  key in o.db.runs && o.db.runs[key].completion == Some(Succeeded) && o.db.runs[key].state == Succeeded)
            && (o.Refused? ==> After(db, o) == db)
  {
    var (base, v) := RegistrationOf(db, now, key, report);
    var r := ModelsOf(db, key.course);
    assert ModelsOf(base, key.course) == r;
    assert Callbacks(db, now, key, Completed(report))
        == RegisterVersion(base, now, key.course, Some(key.id), report.version, v, report.setCurrent);
    if Callbacks(db, now, key, Completed(report)).Applied? { CompletionWritesOneRow(db, now, key, report); }
    KeyExistsIff(r, key.id, report.version);
  }

  lemma KeyExistsIff(r: Models.Registry, run: string, asked: Option<string>)
    requires OneVersionPerRun(r)
    ensures KeyForRun(r, Some(run), asked).Some? <==>
              forall name :: RegisteredAs(r, run, name) && asked.Some? ==> asked.value == name
  {
    var mine := Registrations(r, Some(run));
    if mine != {} {
      assert RegisteredAs(r, run, Least(mine));
    }
    forall name | RegisteredAs(r, run, name) ensures name in mine {}
  }

  // So the report of a run that ended well is lost with its registration when
  // it asks for another name than the run already has; the transaction rolls
  // back, the run's own record included.
  lemma CompletionLostWithItsRegistration(db: Db, now: int, key: RunKey, report: Report, name: string)
    requires key in db.runs && OwnsRequest(db, key) && Registers(report) && Acceptable(report)
    requires !Terminal(db.runs[key].state) || db.runs[key].state == Succeeded
    requires !HasText(db.runs[key].jobId) || !HasText(report.jobId) || report.jobId == db.runs[key].jobId
    requires OneVersionPerRun(ModelsOf(db, key.course)) && RegisteredAs(ModelsOf(db, key.course), key.id, name)
    requires report.version.Some? && report.version.value != name
    ensures Callbacks(db, now, key, Completed(report)).Refused?
    ensures Step(db, now, Callback(key, Completed(report))) == db
  {
    CompletionRecordedIff(db, now, key, report);
  }

  // The price of refreshing rather than refusing: a completion delivered
  // again after its version was activated writes `offline` over `online`, and
  // the course stops being served that version.
  lemma RedeliveredCompletionTakesVersionOffline(db: Db, now: int, key: RunKey, report: Report, name: string)
    requires key in db.runs && db.runs[key].state == Succeeded && OwnsRequest(db, key) && key.course in db.courses
    requires Registers(report) && Registrable(report) && report.version.None?
    requires report.jobId.None? || report.jobId == db.runs[key].jobId
    requires OneVersionPerRun(ModelsOf(db, key.course)) && RegisteredAs(ModelsOf(db, key.course), key.id, name)
    requires Models.Resolved(ModelsOf(db, key.course)) == Some(name)
    ensures var registry := ModelsOf(After(db, Callbacks(db, now, key, Completed(report))), key.course);
            name in registry.versions && registry.versions[name].deployment == Models.Offline
            && Models.Resolved(registry) != Some(name)
  {
    CompletionRecordedIff(db, now, key, report);
    CompletionIsRegistration(db, now, key, report);
    var (base, v) := RegistrationOf(db, now, key, report);
    RegistrationRefreshes(base, now, key, v, report.setCurrent, name);
    Models.RegistrationChangesServing(ModelsOf(db, key.course), name, v.(runId := Some(key.id)), report.setCurrent);
  }

  // A registration that names no version refreshes the run's own.
  lemma RegistrationRefreshes(db: Db, now: int, key: RunKey, v: Models.Version, setCurrent: bool, name: string)
    requires OneVersionPerRun(ModelsOf(db, key.course)) && RegisteredAs(ModelsOf(db, key.course), key.id, name)
    requires RegisterVersion(db, now, key.course, Some(key.id), None, v, setCurrent).Applied?
    ensures var next := RegisterVersion(db, now, key.course, Some(key.id), None, v, setCurrent).db;
            ModelsOf(next, key.course)
            == Models.Upserted(ModelsOf(db, key.course), name, v.(runId := Some(key.id)), setCurrent)
  {
    assert name in Registrations(ModelsOf(db, key.course), Some(key.id));
    assert KeyForRun(ModelsOf(db, key.course), Some(key.id), None) == Some(name);
  }
}
