/** What each transaction of the queue answers and leaves in the tables, column
    by column and with its constants written out
    (`backend/app/db_training_runs.py:451-820`,
    `backend/app/training_queue_routes.py:485-760,940-1150`,
    `backend/app/training_retry.py:76-210`). */
module TrainingTransactions {
  import opened Common
  import opened TrainingDatabase
  import opened TrainingDatabaseLaws
  import Models = ModelRegistry

  // ------------------------------------------------------------------ //
  // Claiming
  // ------------------------------------------------------------------ //

  // In the worker's courses, without a job, and waiting or let go of.
  predicate Offered(key: RunKey, run: Run, now: int, courses: Option<set<string>>) {
    (courses.Some? ==> key.course in courses.value) && run.jobId.None?
    && match run.state
       case Queued => true
       case Claimed => run.claimExpiresAt.Some? ==> run.claimExpiresAt.value <= now
       case _ => false
  }

  // A claim takes the run queued earliest, by id among those queued at the
  // same instant, or it changes nothing.
  lemma ClaimTakesTheOldest(db: Db, now: int, key: RunKey, owner: string, lease: int, courses: Option<set<string>>,
        locked: set<RunKey>)
    ensures Step(db, now, Claim(key, owner, lease, courses, locked)) != db <==>
              |owner| > 0 && lease >= 1 && key in db.runs && key !in locked
              && Offered(key, db.runs[key], now, courses)
              && forall k :: k in db.runs && k !in locked && Offered(k, db.runs[k], now, courses) ==>
                   db.runs[k].enqueuedAt >= db.runs[key].enqueuedAt
                   && (db.runs[k].enqueuedAt == db.runs[key].enqueuedAt ==> Leq(key.id, k.id))
  {
    if owner != "" && lease > 0 && IsNext(db.runs, now, courses, locked, key) {
      assert Step(db, now, Claim(key, owner, lease, courses, locked)).runs[key].attempt == db.runs[key].attempt + 1;
      forall k | k in db.runs && k !in locked && Offered(k, db.runs[k], now, courses)
        ensures QueuedBefore(key, db.runs[key], k, db.runs[k])
      {
      }
    }
  }

  // The claimed row holds this lease whole; its other columns and all other
  // rows are as they were.
  lemma ClaimLeaves(db: Db, now: int, key: RunKey, owner: string, lease: int, courses: Option<set<string>>,
        locked: set<RunKey>)
    requires Step(db, now, Claim(key, owner, lease, courses, locked)) != db
    ensures key in db.runs && key in Step(db, now, Claim(key, owner, lease, courses, locked)).runs
    ensures var next := Step(db, now, Claim(key, owner, lease, courses, locked));
            var (was, row) := (db.runs[key], next.runs[key]);
            next == db.(runs := db.runs[key := row])
            && row.state == Claimed && row.attempt == was.attempt + 1 && row.updatedAt == now
            && row.claimOwner == Some(owner) && row.claimedAt == Some(now) && row.claimExpiresAt == Some(now + lease)
            && SameAssignment(was, row) && row.jobId == was.jobId && row.error == was.error
            && row.completion == was.completion && row.trainExamples == was.trainExamples
            && row.validationExamples == was.validationExamples
  {
  }

  // The columns that say what the run is to be trained on.
  predicate SameAssignment(was: Run, row: Run) {
    row.mode == was.mode && row.enqueuedAt == was.enqueuedAt && row.datasetRef == was.datasetRef
    && row.approved == was.approved && row.datasetSha256 == was.datasetSha256
  }

  // Whatever its lease, pin or age: a failed run may be retried, a successful
  // one may not.
  lemma EndedRunAndRetry(run: Run, now: int, current: Option<string>)
    requires Finished(run)
    ensures Retryable(run, now, current) <==> run.state != Succeeded
  {
  }

  // A claimed row that lost any of its three lease columns is held by nobody
  // as far as a retry is concerned.
  lemma HalfALeaseIsNone(run: Run, now: int, current: Option<string>)
    requires run.state == Claimed
    ensures Retryable(run, now, current) <==>
              run.claimOwner.None? || run.claimedAt.None? || run.claimExpiresAt.None? || run.claimExpiresAt.value <= now
  {
  }

  // ------------------------------------------------------------------ //
  // Queueing
  // ------------------------------------------------------------------ //

  function AtLeastZero(n: int): (m: nat)
    ensures m >= n && (m == n || m == 0)
  {
    if n >= 1 then n else 0
  }

  // Unknown course, course with an unfinished run, id already taken: in that
  // order. Otherwise one new row that nobody has tried.
  lemma EnqueueAnswers(db: Db, now: int, key: RunKey, mode: Mode, ref: string, approved: int, train: int,
        validation: int, sha: Option<string>)
    ensures var o := Enqueue(db, now, key, NewRun(now, mode, ref, approved, train, validation, sha));
            var busy := exists k :: k in db.runs && k.course == key.course
                                    && db.runs[k].state in {Queued, Claimed, Submitted, RunState.Training};
            if key.course !in db.courses then o == Refused(404)
            else if busy then o == Refused(409)
            else if key in db.runs then o == Refused(503)
            else o == Applied(db.(runs := db.runs[key :=
              Run(mode, Queued, now, now, ref, AtLeastZero(approved), AtLeastZero(train), AtLeastZero(validation), 0,
                  None, None, None, None, None, None, sha)]))
  {
    assert forall k :: k in db.runs ==>
        (Terminal(db.runs[k].state) <==> db.runs[k].state !in {Queued, Claimed, Submitted, RunState.Training});
  }

  // ------------------------------------------------------------------ //
  // Reports: what is refused
  // ------------------------------------------------------------------ //

  // What a completion must look like to be read at all.
  lemma ReadableCompletionIff(r: Report)
    ensures Acceptable(r) <==>
              (r.version.Some? ==> Models.IsVersionName(r.version.value))
              && (r.succeeded && r.register ==>
                    |r.baseModel| >= 1 && |r.artifactRef| >= 1 && r.artifactRef[0] != '/'
                    && (r.lengthSatisfied.Some? ==> r.lengthSatisfied.value) && r.missingSteps in {None, Some(0)})
  {
  }

  predicate PointsElsewhere(db: Db, key: RunKey) {
    key.course in db.requests && db.requests[key.course].currentRunId.Some?
    && db.requests[key.course].currentRunId.value != key.id
  }

  predicate Finished(run: Run) { run.state in {Succeeded, RunState.Failed} }

  // What the record holds against a report: a finished run has nothing more
  // to say but its own outcome again, a run with a job cannot be refused by
  // its worker, a completion names no other job than the one recorded, and a
  // version name is not changed.
  ghost predicate AtOdds(db: Db, key: RunKey, c: Callback)
    requires key in db.runs
  {
    var run := db.runs[key];
    match c
    case Completed(report) =>
      (Finished(run) && (run.state == Succeeded) != report.succeeded)
      || (run.jobId.Some? && report.jobId.Some? && |run.jobId.value| > 0 && |report.jobId.value| > 0
          && run.jobId.value != report.jobId.value)
      || (report.succeeded && report.register && report.version.Some?
          && exists name :: RegisteredAs(ModelsOf(db, key.course), key.id, name) && name != report.version.value)
    case Refusal(_) => Finished(run) || (run.jobId.Some? && |run.jobId.value| > 0)
    case _ => Finished(run)
  }

  // Exactly which reports are refused, and with which status. A hand-back is
  // taken whoever the request belongs to.
  lemma ReportRefusedIff(db: Db, now: int, key: RunKey, c: Callback)
    requires key in db.runs ==> key.course in db.courses && OneVersionPerRun(ModelsOf(db, key.course))
    ensures var o := Callbacks(db, now, key, c);
            if c.Completed? && !Acceptable(c.report) then o == Refused(422)
            else if key !in db.runs then o == Refused(404)
            else if (!c.Release? && PointsElsewhere(db, key)) || AtOdds(db, key, c) then o == Refused(409)
            else if c.SubmittedReport? && |c.job| == 0 then o == Refused(422)
            else o.Applied?
  {
    if key in db.runs {
      assert OwnsRequest(db, key) <==> !PointsElsewhere(db, key);
      assert Terminal(db.runs[key].state) <==> Finished(db.runs[key]);
      if c.Completed? && Acceptable(c.report) { CompletionRefusedIff(db, now, key, c.report); }
    }
  }

  lemma CompletionRefusedIff(db: Db, now: int, key: RunKey, report: Report)
    requires key in db.runs && key.course in db.courses && OneVersionPerRun(ModelsOf(db, key.course))
    requires Acceptable(report)
    ensures var o := Callbacks(db, now, key, Completed(report));
            if PointsElsewhere(db, key) || AtOdds(db, key, Completed(report)) then o == Refused(409) else o.Applied?
  {
    var r := ModelsOf(db, key.course);
    KeyExistsIff(r, key.id, report.version);
    assert OwnsRequest(db, key) <==> !PointsElsewhere(db, key);
    if key in db.runs {
      assert Terminal(db.runs[key].state) <==> Finished(db.runs[key]);
      var (base, _) := RegistrationOf(db, now, key, report);
      assert ModelsOf(base, key.course) == r && (OwnsRequest(base, key) <==> OwnsRequest(db, key));
    }
  }

  // ------------------------------------------------------------------ //
  // Reports: what is written
  // ------------------------------------------------------------------ //

  function StateAfter(c: Callback): RunState {
    match c
    case Release(_) => Queued
    case SubmissionFailed(_) => Queued
    case SubmittedReport(_, _, _) => Submitted
    case Refusal(_) => RunState.Failed
    case TrainingFailed(_) => RunState.Failed
    case Completed(report) => if report.succeeded then Succeeded else RunState.Failed
  }

  // The row an accepted report leaves, by column. A job recorded once is
  // kept; a failure without a reason gets the standing one; a hand-back
  // without a reason keeps the last.
  lemma ReportLeaves(db: Db, now: int, key: RunKey, c: Callback)
    requires Callbacks(db, now, key, c).Applied?
    ensures key in db.runs && key in Callbacks(db, now, key, c).db.runs
    ensures var next := Callbacks(db, now, key, c).db;
            var (was, row) := (db.runs[key], next.runs[key]);
            next.runs == db.runs[key := row] && SameAssignment(was, row) && row.attempt == was.attempt
            && row.updatedAt == now && row.state == StateAfter(c)
            && row.claimOwner.None? && row.claimedAt.None? && row.claimExpiresAt.None?
            && row.completion == (if c.Completed? then Some(StateAfter(c)) else was.completion)
            && row.jobId == (match c
                             case SubmittedReport(job, _, _) => Some(job)
                             case Completed(report) =>
                               if was.jobId in {None, Some("")} && report.jobId !in {None, Some("")}
                               then report.jobId else was.jobId
                             case _ => was.jobId)
            && row.error == (match c
                             case Release(note) => if note.None? then was.error else note
                             case SubmissionFailed(error) => Some(error)
                             case Refusal(error) => Some(error)
                             case TrainingFailed(error) => Some(error)
                             case SubmittedReport(_, _, _) => None
                             case Completed(report) =>
                               if report.succeeded then None
                               else if report.error in {None, Some("")}
                               then Some("Training did not finish successfully.")
                               else report.error)
            && row.trainExamples == (match c
                                     case SubmittedReport(_, train, _) => AtLeastZero(train)
                                     case Completed(report) =>
                                       if report.succeeded && report.train.Some? then report.train.value
                                       else was.trainExamples
                                     case _ => was.trainExamples)
            && row.validationExamples == (match c
                                          case SubmittedReport(_, _, validation) => AtLeastZero(validation)
                                          case Completed(report) =>
                                            if report.succeeded && report.validation.Some? then report.validation.value
                                            else was.validationExamples
                                          case _ => was.validationExamples)
  {
    CallbackWritesOneRow(db, now, key, c);
  }

  // And the request, while the run owns it: who owns it, since when, and what
  // the professor and the operator read there.
  lemma ReportTells(db: Db, now: int, key: RunKey, c: Callback)
    requires Callbacks(db, now, key, c).Applied? && key.course in db.requests && !PointsElsewhere(db, key)
    ensures key in db.runs && key.course in Callbacks(db, now, key, c).db.requests
    ensures var r, was := Callbacks(db, now, key, c).db.requests[key.course], db.requests[key.course];
            if c.Release? || (c.Completed? && c.report.succeeded && !c.report.register) then r == was
            else
              r.currentRunId == Some(key.id) && r.updatedAt == now
              && r.requestedAt == was.requestedAt && r.approved == was.approved && r.preparation == was.preparation
              && match c
                 case SubmittedReport(job, _, _) =>
                   r.training == Some(TrainingBlock(job, db.runs[key].mode, now)) && r.launchError == None
                   && r.status == InTraining && r.failureMessage == was.failureMessage
                 case SubmissionFailed(error) => r == was.(currentRunId := Some(key.id), updatedAt := now,
                                                           launchError := Some(error))
                 case Refusal(error) => r == was.(currentRunId := Some(key.id), updatedAt := now,
                                                  launchError := Some(error))
                 case TrainingFailed(error) =>
                   r.training == was.training && r.launchError == Some(error) && r.status == RequestFailed
                   && r.failureMessage == Some("Training did not finish successfully.")
                 case Completed(report) =>
                   r.training == was.training
                   && if report.succeeded then r.status == ReadyToServe && r.launchError == r.failureMessage == None
                      else r.status == RequestFailed
                           && r.failureMessage == Some("Training did not finish successfully.")
                           && r.launchError == (if report.error in {None, Some("")}
                                                then Some("Training did not finish successfully.") else report.error)
                 case Release(_) => false
  {
    ReportLeaves(db, now, key, c);
  }

  // ------------------------------------------------------------------ //
  // Retrying
  // ------------------------------------------------------------------ //

  predicate FirstPositive(n: nat, disk: int, run: int, prepared: int) {
    (disk >= 1 ==> n == disk) && (disk < 1 && run >= 1 ==> n == run)
    && (disk < 1 && run < 1 ==> n == AtLeastZero(prepared))
  }

  // Nothing to retry is 404; a run that may not be retired, one without
  // prepared data and a course with another unfinished run are 409; an id
  // already taken is 503.
  lemma RetryAnswers(db: Db, now: int, course: string, newId: string, disk: Option<OnDisk>)
    ensures var o := Retry(db, now, course, newId, disk);
            if course !in db.requests then o == Refused(404)
            else if db.requests[course].currentRunId.None? then o == Refused(404)
            else
              var key := RunKey(course, db.requests[course].currentRunId.value);
              if key !in db.runs then o == Refused(404)
              else if !Retryable(db.runs[key], now, if disk.Some? then Some(disk.value.sha256) else None)
                      || (|db.runs[key].datasetRef| == 0
                          && (db.requests[course].preparation.Some? ==>
                                |db.requests[course].preparation.value.datasetRef| == 0))
              then o == Refused(409)
              else if course !in db.courses then o == Refused(404)
              else if exists k :: k in db.runs && k.course == course && k != key && !Finished(db.runs[k])
              then o == Refused(409)
              else if RunKey(course, newId) in db.runs then o == Refused(503)
              else o.Applied?
  {
    if course in db.requests && db.requests[course].currentRunId.Some?
       && RunKey(course, db.requests[course].currentRunId.value) in db.runs {
      var key := RunKey(course, db.requests[course].currentRunId.value);
      var retired := WithRun(db, key, FailedRun(db.runs[key], now, SUPERSEDED));
      assert forall k :: k in db.runs ==> (Terminal(db.runs[k].state) <==> Finished(db.runs[k]));
      if k :| k in db.runs && k.course == course && k != key && !Finished(db.runs[k]) {
        assert k in retired.runs && retired.runs[k] == db.runs[k];
      }
    }
  }

  // The retired run keeps its history, the replacement carries its assignment
  // on, pinned to the data on disk, and the request has let go of the job.
  lemma RetryLeaves(db: Db, now: int, course: string, newId: string, disk: Option<OnDisk>)
    requires Retry(db, now, course, newId, disk).Applied?
    ensures course in db.requests && db.requests[course].currentRunId.Some?
    ensures var (from, to) := (RunKey(course, db.requests[course].currentRunId.value), RunKey(course, newId));
            var next := Retry(db, now, course, newId, disk).db;
            from in db.runs && from in next.runs && to in next.runs && course in next.requests
            && var (was, retired, row) := (db.runs[from], next.runs[from], next.runs[to]);
               var (asked, request) := (db.requests[course], next.requests[course]);
               var p := if asked.preparation.Some? then asked.preparation.value else Preparation("", 0, 0, 0);
               next == db.(runs := db.runs[from := retired][to := row], requests := db.requests[course := request])
               && retired == was.(state := RunState.Failed, updatedAt := now,
                                  error := Some("Superseded by admin retry"),
                                  claimOwner := None, claimedAt := None, claimExpiresAt := None)
               && row.mode == was.mode && row.state == Queued && row.enqueuedAt == row.updatedAt == now
               && row.datasetRef == (if |was.datasetRef| > 0 then was.datasetRef else p.datasetRef)
               && FirstPositive(row.approved, 0, was.approved, p.approved)
               && FirstPositive(row.trainExamples, if disk.Some? then disk.value.train else 0, was.trainExamples,
                                p.train)
               && FirstPositive(row.validationExamples, if disk.Some? then disk.value.validation else 0,
                                was.validationExamples, p.validation)
               && row.attempt == 0 && row.jobId == row.claimOwner == row.error == None
               && row.claimedAt == row.claimExpiresAt == None && row.completion == None
               && row.datasetSha256 == (if disk.Some? then Some(disk.value.sha256) else None)
               && request == asked.(status := Preparing, updatedAt := now, currentRunId := Some(newId),
                                    training := None, launchError := None, failureMessage := None)
  {
    var (from, to) := (RunKey(course, db.requests[course].currentRunId.value), RunKey(course, newId));
    var next := Retry(db, now, course, newId, disk).db;
    assert next.runs == db.runs[from := next.runs[from]][to := next.runs[to]];
  }

  // ------------------------------------------------------------------ //
  // Opening a request
  // ------------------------------------------------------------------ //

  // A course has one request that somebody still waits for; a finished one is
  // forgotten whole.
  lemma RequestOpens(db: Db, now: int, course: string, approved: int)
    ensures var o := CreateRequest(db, now, course, approved);
            if course !in db.courses then o == Refused(404)
            else if course in db.requests && db.requests[course].status !in {ReadyToServe, RequestFailed}
            then o == Refused(409)
            else o == Applied(db.(requests := db.requests[course :=
              Request(Requested, now, now, AtLeastZero(approved), None, None, None, None, None)]))
  {
  }

  // ------------------------------------------------------------------ //
  // Registering
  // ------------------------------------------------------------------ //

  // The registry a course has, and the empty one until it has any.
  lemma RegistryOf(db: Db, course: string)
    ensures if course in db.models then ModelsOf(db, course) == db.models[course]
            else ModelsOf(db, course).current.None? && ModelsOf(db, course).versions == map[]
  {
  }

  // The name a run's version has already; failing that the one asked for, and
  // failing that the next number.
  lemma NamedAsBefore(r: Models.Registry, run: Option<string>, asked: Option<string>, name: string)
    requires OneVersionPerRun(r) && KeyForRun(r, run, asked) == Some(name)
    ensures (run.Some? && RegisteredAs(r, run.value, name))
            || ((forall n :: run.Some? ==> !RegisteredAs(r, run.value, n))
                && (if asked.Some? then name == asked.value else name == Models.NextVersion(r.versions.Keys)))
  {
    if run.Some? && exists n :: RegisteredAs(r, run.value, n) {
      var n :| RegisteredAs(r, run.value, n);
      assert n in Registrations(r, run);
    } else {
      assert Registrations(r, run) == {};
    }
  }

  // Refused for a course nobody knows, for a run the request has left, and
  // for a second name for one run.
  lemma RegistrationAnswers(db: Db, now: int, course: string, run: Option<string>, asked: Option<string>,
        v: Models.Version, setCurrent: bool)
    requires OneVersionPerRun(ModelsOf(db, course))
    ensures var o := RegisterVersion(db, now, course, run, asked, v, setCurrent);
            if course !in db.courses then o == Refused(404)
            else if run.Some? && PointsElsewhere(db, RunKey(course, run.value)) then o == Refused(409)
            else if run.Some? && asked.Some?
                    && exists name :: RegisteredAs(ModelsOf(db, course), run.value, name) && name != asked.value
            then o == Refused(409)
            else o.Applied?
  {
    if run.Some? {
      KeyExistsIff(ModelsOf(db, course), run.value, asked);
    } else {
      assert Registrations(ModelsOf(db, course), run) == {};
    }
  }

  // What a registration writes: the version under that one name, and, when
  // the version is ready, the run's success and the request's.
  lemma RegistrationLeaves(db: Db, now: int, course: string, run: Option<string>, asked: Option<string>,
        v: Models.Version, setCurrent: bool)
    requires RegisterVersion(db, now, course, run, asked, v, setCurrent).Applied?
    ensures course in db.courses && KeyForRun(ModelsOf(db, course), run, asked).Some?
    ensures var next := RegisterVersion(db, now, course, run, asked, v, setCurrent).db;
            var name := KeyForRun(ModelsOf(db, course), run, asked).value;
            var was := ModelsOf(db, course);
            next.models == db.models[course :=
              Models.Registry(if setCurrent then Some(name) else was.current, was.versions[name := v.(runId := run)])]
            && next.courses == db.courses
            && (v.status != Models.Ready ==> next.runs == db.runs && next.requests == db.requests)
            && (v.status == Models.Ready ==>
                  next.requests == (if course !in db.requests then db.requests
                                    else db.requests[course := db.requests[course].(
                                      status := ReadyToServe, updatedAt := now, failureMessage := None,
                                      launchError := None,
                                      currentRunId := if run.Some? then run else db.requests[course].currentRunId)])
                  && next.runs == (if run.Some? && RunKey(course, run.value) in db.runs
                                   then db.runs[RunKey(course, run.value) := db.runs[RunKey(course, run.value)].(
                                     state := Succeeded, updatedAt := now,
                                     claimOwner := None, claimedAt := None, claimExpiresAt := None)]
                                   else db.runs))
  {
  }

  // A success that is to be registered becomes a version that is ready but
  // not yet served, made of what the report says.
  lemma CompletionRegisters(db: Db, now: int, key: RunKey, report: Report)
    requires report.succeeded && report.register && Callbacks(db, now, key, Completed(report)).Applied?
    ensures key in db.runs && KeyForRun(ModelsOf(db, key.course), Some(key.id), report.version).Some?
    ensures var next := Callbacks(db, now, key, Completed(report)).db;
            var name := KeyForRun(ModelsOf(db, key.course), Some(key.id), report.version).value;
            var was := ModelsOf(db, key.course);
            next.models == db.models[key.course :=
              Models.Registry(if report.setCurrent then Some(name) else was.current,
                was.versions[name := Models.Version(
                  report.baseModel,
                  if report.train.Some? then report.train.value else db.runs[key].trainExamples,
                  Models.Ready, Models.Offline, report.artifactRef, now, Some(key.id))])]
  {
    CompletionIsRegistration(db, now, key, report);
    var (base, v) := RegistrationOf(db, now, key, report);
    assert ModelsOf(base, key.course) == ModelsOf(db, key.course);
    RegistrationLeaves(base, now, key.course, Some(key.id), report.version, v, report.setCurrent);
  }

  // Nothing else is a report's business.
  lemma OtherReportsRegisterNothing(db: Db, now: int, key: RunKey, c: Callback)
    requires !(c.Completed? && c.report.succeeded && c.report.register)
    ensures After(db, Callbacks(db, now, key, c)).models == db.models
  {
  }

  // ------------------------------------------------------------------ //
  // Administrators
  // ------------------------------------------------------------------ //

  // An edit replaces the request a course has and makes none; a version is not
  // registered as online; publication and withdrawal go to that course's
  // registry and to nothing else.
  lemma AdministratorWrites(db: Db, now: int, course: string, request: Request, run: Option<string>,
        asked: Option<string>, v: Models.Version, setCurrent: bool, write: Models.Write)
    ensures Step(db, now, PatchRequest(course, request)) ==
              db.(requests := if course in db.requests then db.requests[course := request] else db.requests)
    ensures Step(db, now, RegisterModel(course, run, asked, v, setCurrent)) ==
              (if v.deployment in {Models.Offline, Models.Unknown}
               then After(db, RegisterVersion(db, now, course, run, asked, v, setCurrent)) else db)
    ensures var next := Step(db, now, WriteModels(course, write));
            next.runs == db.runs && next.requests == db.requests && next.courses == db.courses
            && (forall c :: c != course ==> ModelsOf(next, c) == ModelsOf(db, c))
            && ModelsOf(next, course) == (if write.Register? then ModelsOf(db, course)
                                          else Models.Apply(ModelsOf(db, course), now, write))
  {
  }
}
