/** The backend's tables for training: runs, model requests and version
    registries, and every transaction that writes them.

    `backend/app/db_training_runs.py` and `db_model_requests.py` supply the
    single-table writes, `training_queue_routes.py` and `training_retry.py` the
    transactions around them. Each transaction is one atomic step; a refused
    one rolls back. Text is as it is after the source's trimming. */
module TrainingDatabase {
  import opened Common
  import Models = ModelRegistry

  datatype RunKey = RunKey(course: string, id: string)

  datatype RunState = Queued | Claimed | Submitted | Training | Succeeded | Failed
  datatype Mode = Smoke | Full

  datatype Run = Run(
    mode: Mode,
    state: RunState,
    enqueuedAt: int,
    updatedAt: int,
    datasetRef: string,
    approved: nat,
    trainExamples: nat,
    validationExamples: nat,
    attempt: nat,
    jobId: Option<string>,
    claimOwner: Option<string>,
    claimedAt: Option<int>,
    claimExpiresAt: Option<int>,
    error: Option<string>,
    completion: Option<RunState>,
    datasetSha256: Option<string>)

  datatype RequestStatus = Requested | Preparing | InTraining | ReadyToServe | RequestFailed

  datatype TrainingBlock = TrainingBlock(jobId: string, mode: Mode, submittedAt: int)

  datatype Preparation = Preparation(datasetRef: string, approved: int, train: int, validation: int)

  datatype Request = Request(
    status: RequestStatus,
    requestedAt: int,
    updatedAt: int,
    approved: nat,
    failureMessage: Option<string>,
    preparation: Option<Preparation>,
    training: Option<TrainingBlock>,
    launchError: Option<string>,
    currentRunId: Option<string>)

  type RunTable = map<RunKey, Run>

  datatype Db = Db(
    courses: set<string>,
    runs: RunTable,
    requests: map<string, Request>,
    models: map<string, Models.Registry>)

  function NewDatabase(courses: set<string>): Db { Db(courses, map[], map[], map[]) }

  function ModelsOf(db: Db, course: string): Models.Registry {
    if course in db.models then db.models[course] else Models.NoModels
  }

  // ------------------------------------------------------------------ //
  // Decisions about one run
  // ------------------------------------------------------------------ //

  predicate Terminal(s: RunState) { s == Succeeded || s == Failed }

  predicate Active(runs: RunTable, course: string) {
    exists k :: k in runs && k.course == course && !Terminal(runs[k].state)
  }

  // CLAIMABLE_PREDICATE, less the course filter.
  predicate Claimable(run: Run, now: int) {
    run.jobId.None?
    && (run.state == Queued
        || (run.state == Claimed && (run.claimExpiresAt.None? || run.claimExpiresAt.value <= now)))
  }

  // A claim is reported only when all three of its columns are set.
  predicate Leased(run: Run) {
    run.claimOwner.Some? && run.claimedAt.Some? && run.claimExpiresAt.Some?
  }

  const STALE_AFTER: int := 6 * 60 * 60 * SECOND

  predicate HasText(text: Option<string>) { text.Some? && text.value != "" }

  predicate QueuedRunIsStale(run: Run, current: Option<string>) {
    HasText(run.error)
    || (HasText(run.datasetSha256) && HasText(current) && run.datasetSha256 != current)
  }

  // `training_run_retry_block` returns no refusal.
  predicate Retryable(run: Run, now: int, current: Option<string>) {
    match run.state
    case Failed => true
    case Queued => QueuedRunIsStale(run, current)
    case Submitted | Training => now - run.updatedAt >= STALE_AFTER
    case Succeeded => false
    case Claimed => !Leased(run) || run.claimExpiresAt.value <= now
  }

  // ORDER BY enqueued_at, run_id
  predicate QueuedBefore(a: RunKey, ra: Run, b: RunKey, rb: Run) {
    ra.enqueuedAt < rb.enqueuedAt || (ra.enqueuedAt == rb.enqueuedAt && Leq(a.id, b.id))
  }

  predicate Wanted(key: RunKey, courses: Option<set<string>>) {
    courses.None? || key.course in courses.value
  }

  // What `SELECT ... FOR UPDATE SKIP LOCKED LIMIT 1` returns: a least
  // claimable row among those no other transaction holds.
  predicate IsNext(runs: RunTable, now: int, courses: Option<set<string>>, locked: set<RunKey>, key: RunKey) {
    key in runs && key !in locked && Wanted(key, courses) && Claimable(runs[key], now)
    && forall k :: k in runs && k !in locked && Wanted(k, courses) && Claimable(runs[k], now) ==>
         QueuedBefore(key, runs[key], k, runs[k])
  }

  // ------------------------------------------------------------------ //
  // Row writes
  // ------------------------------------------------------------------ //

  function Unleased(run: Run): Run {
    run.(claimOwner := None, claimedAt := None, claimExpiresAt := None)
  }

  function NewRun(now: int, mode: Mode, ref: string, approved: int, train: int, validation: int,
        sha: Option<string>): Run
  {
    Run(mode, Queued, now, now, ref, Clamp(approved), Clamp(train), Clamp(validation), 0,
        None, None, None, None, None, None, sha)
  }

  function Clamp(n: int): nat { if n < 0 then 0 else n }

  function ClaimedRun(run: Run, now: int, owner: string, lease: int): Run {
    run.(state := Claimed, attempt := run.attempt + 1, updatedAt := now,
         claimOwner := Some(owner), claimedAt := Some(now), claimExpiresAt := Some(now + lease))
  }

  function ReleasedRun(run: Run, now: int, error: Option<string>): Run {
    Unleased(run).(state := Queued, updatedAt := now, error := if error.Some? then error else run.error)
  }

  function FailedRun(run: Run, now: int, error: string): Run {
    Unleased(run).(state := Failed, updatedAt := now, error := Some(error))
  }

  const SUPERSEDED := "Superseded by admin retry"

  function SubmittedRun(run: Run, now: int, job: string, train: int, validation: int): Run {
    Unleased(run).(state := Submitted, updatedAt := now, jobId := Some(job), error := None,
                   trainExamples := Clamp(train), validationExamples := Clamp(validation))
  }

  // ------------------------------------------------------------------ //
  // Transactions
  // ------------------------------------------------------------------ //

  datatype Outcome = Applied(db: Db) | Refused(status: nat)

  function After(db: Db, o: Outcome): Db { if o.Applied? then o.db else db }

  function Enqueue(db: Db, now: int, key: RunKey, run: Run): Outcome {
    if key.course !in db.courses then Refused(404)
    else if Active(db.runs, key.course) then Refused(409)
    else if key in db.runs then Refused(503)
    else Applied(db.(runs := db.runs[key := run]))
  }

  // The reply's completion payload, where it decides anything.
  datatype Report = Report(
    succeeded: bool,
    jobId: Option<string>,
    error: Option<string>,
    train: Option<nat>,
    validation: Option<nat>,
    register: bool,
    setCurrent: bool,
    version: Option<string>,
    baseModel: string,
    artifactRef: string,
    lengthSatisfied: Option<bool>,
    missingSteps: Option<nat>)

  predicate Registers(r: Report) { r.succeeded && r.register }

  function EndState(r: Report): RunState { if r.succeeded then Succeeded else Failed }

  predicate Registrable(r: Report) {
    r.artifactRef != "" && r.artifactRef[0] != '/' && r.baseModel != ""
    && r.lengthSatisfied != Some(false) && (r.missingSteps.None? || r.missingSteps.value == 0)
  }

  // What the route takes at all: a version, when one is asked for, must look
  // like one, and a success to be registered must be registrable.
  predicate Acceptable(r: Report) {
    (r.version.None? || Models.IsVersionName(r.version.value)) && (Registers(r) ==> Registrable(r))
  }

  datatype Callback =
    | Release(note: Option<string>)
    | SubmittedReport(job: string, train: int, validation: int)
    | SubmissionFailed(error: string)
    | Refusal(error: string)
    | TrainingFailed(error: string)
    | Completed(report: Report)

  // `_require_current_run` lets the report through.
  predicate OwnsRequest(db: Db, key: RunKey) {
    key.course !in db.requests
    || db.requests[key.course].currentRunId.None?
    || db.requests[key.course].currentRunId == Some(key.id)
  }

  function OwnedBy(request: Request, key: RunKey, now: int): Request {
    request.(currentRunId := Some(key.id), updatedAt := now)
  }

  function WithRun(db: Db, key: RunKey, run: Run): Db { db.(runs := db.runs[key := run]) }

  // `update_model_request_for_run`: the patch lands only while the run owns
  // the request.
  function WithRequest(db: Db, key: RunKey, patched: Request): Db {
    if key.course in db.requests && OwnsRequest(db, key)
    then db.(requests := db.requests[key.course := patched]) else db
  }

  function RequestOf(db: Db, course: string): Request {
    if course in db.requests then db.requests[course]
    else Request(Requested, 0, 0, 0, None, None, None, None, None)
  }

  function Callbacks(db: Db, now: int, key: RunKey, c: Callback): Outcome {
    if c.Completed? && !Acceptable(c.report) then Refused(422)
    else if key !in db.runs then Refused(404)
    else if !c.Release? && !OwnsRequest(db, key) then Refused(409)
    else if !c.Completed? && Terminal(db.runs[key].state) then Refused(409)
    else
      var run := db.runs[key];
      var request := OwnedBy(RequestOf(db, key.course), key, now);
      match c
      case Release(error) =>
        Applied(WithRun(db, key, ReleasedRun(run, now, error)))
      case SubmittedReport(job, train, validation) =>
        if job == "" then Refused(422) else
        Applied(WithRequest(WithRun(db, key, SubmittedRun(run, now, job, train, validation)), key,
          request.(status := InTraining, launchError := None, training := Some(TrainingBlock(job, run.mode, now)))))
      case SubmissionFailed(error) =>
        var released := WithRun(db, key, ReleasedRun(run, now, Some(error)));
        Applied(WithRequest(released, key, request.(launchError := Some(error))))
      case Refusal(error) =>
        if HasText(run.jobId) then Refused(409) else
        Applied(WithRequest(WithRun(db, key, FailedRun(run, now, error)), key, request.(launchError := Some(error))))
      case TrainingFailed(error) =>
        Applied(WithRequest(WithRun(db, key, FailedRun(run, now, error)), key,
          request.(status := RequestFailed, failureMessage := Some(FAILED_MESSAGE), launchError := Some(error))))
      case Completed(report) => Complete(db, now, key, run, request, report)
  }

  const FAILED_MESSAGE := "Training did not finish successfully."

  function JobAfter(run: Run, report: Report): Option<string> {
    if !HasText(run.jobId) && HasText(report.jobId) then report.jobId else run.jobId
  }

  function Complete(db: Db, now: int, key: RunKey, run: Run, request: Request, report: Report): Outcome
    requires key in db.runs && db.runs[key] == run
  {
    if Terminal(run.state) && run.state != EndState(report) then Refused(409)
    else if HasText(run.jobId) && HasText(report.jobId) && run.jobId != report.jobId then Refused(409)
    else
      var ended := Unleased(run).(updatedAt := now, jobId := JobAfter(run, report),
                                  completion := Some(EndState(report)));
      if !report.succeeded then
        var error := if HasText(report.error) then report.error.value else FAILED_MESSAGE;
        Applied(WithRequest(WithRun(db, key, ended.(state := Failed, error := Some(error))), key,
          request.(status := RequestFailed, failureMessage := Some(FAILED_MESSAGE), launchError := Some(error))))
      else
        var done := ended.(error := None,
          trainExamples := if report.train.Some? then report.train.value else run.trainExamples,
          validationExamples := if report.validation.Some? then report.validation.value else run.validationExamples);
        if !report.register then Applied(WithRun(db, key, done.(state := Succeeded)))
        else
          var version := Models.Version(report.baseModel, done.trainExamples, Models.Ready, Models.Offline,
                                        report.artifactRef, now, Some(key.id));
          RegisterVersion(WithRun(db, key, done), now, key.course, Some(key.id), report.version, version,
                          report.setCurrent)
  }

  // The version keys registered for a run; the unique index on
  // (course_id, run_id) keeps it to at most one.
  predicate RegisteredAs(r: Models.Registry, run: string, name: string) {
    name in r.versions && r.versions[name].runId == Some(run)
  }

  function Registrations(r: Models.Registry, run: Option<string>): set<string> {
    set name | name in r.versions && run.Some? && RegisteredAs(r, run.value, name)
  }

  function KeyForRun(r: Models.Registry, run: Option<string>, asked: Option<string>): Option<string> {
    var mine := Registrations(r, run);
    if mine != {} then
      var name := Least(mine);
      if asked.Some? && asked.value != name then None else Some(name)
    else if asked.Some? then asked
    else Some(Models.NextVersion(r.versions.Keys))
  }

  // `_register_version_in_transaction`
  function RegisterVersion(db: Db, now: int, course: string, run: Option<string>, asked: Option<string>,
                           v: Models.Version, setCurrent: bool): Outcome {
    if course !in db.courses then Refused(404)
    else if run.Some? && !OwnsRequest(db, RunKey(course, run.value)) then Refused(409)
    else
      var name := KeyForRun(ModelsOf(db, course), run, asked);
      if name.None? then Refused(409)
      else
        var registry := Models.Upserted(ModelsOf(db, course), name.value, v.(runId := run), setCurrent);
        var registered := db.(models := db.models[course := registry]);
        if v.status != Models.Ready then Applied(registered)
        else
          var ready := RequestOf(db, course).(status := ReadyToServe, updatedAt := now,
                                              failureMessage := None, launchError := None);
          if run.None? then
            Applied(if course in db.requests then registered.(requests := db.requests[course := ready]) else registered)
          else
            var key := RunKey(course, run.value);
            var moved := WithRequest(registered, key, ready.(currentRunId := run));
            Applied(if key in db.runs
                    then WithRun(moved, key, Unleased(db.runs[key]).(state := Succeeded, updatedAt := now))
                    else moved)
  }

  // What `describe_dataset` finds on disk for a course.
  datatype OnDisk = OnDisk(sha256: string, train: nat, validation: nat)

  // `_carried_count`: the first source with a positive count.
  function Carried(disk: int, run: int, prepared: int): nat {
    if disk > 0 then disk else if run > 0 then run else Clamp(prepared)
  }

  function CarriedRef(previous: Run, request: Request): string {
    if previous.datasetRef != "" then previous.datasetRef
    else if request.preparation.Some? then request.preparation.value.datasetRef else ""
  }

  function Replacement(previous: Run, request: Request, now: int, disk: Option<OnDisk>): Run {
    var p := if request.preparation.Some? then request.preparation.value else Preparation("", 0, 0, 0);
    var (train, validation) := if disk.Some? then (disk.value.train, disk.value.validation) else (0, 0);
    NewRun(now, previous.mode, CarriedRef(previous, request), Carried(0, previous.approved, p.approved),
           Carried(train, previous.trainExamples, p.train),
           Carried(validation, previous.validationExamples, p.validation),
           if disk.Some? then Some(disk.value.sha256) else None)
  }

  function RetriedRequest(request: Request, now: int, newId: string): Request {
    request.(status := Preparing, updatedAt := now, currentRunId := Some(newId),
             training := None, launchError := None, failureMessage := None)
  }

  // `retry_training_run`
  function Retry(db: Db, now: int, course: string, newId: string, disk: Option<OnDisk>): Outcome {
    if course !in db.requests || db.requests[course].currentRunId.None? then Refused(404)
    else
      var request := db.requests[course];
      var key := RunKey(course, request.currentRunId.value);
      if key !in db.runs then Refused(404)
      else
        var previous := db.runs[key];
        if !Retryable(previous, now, if disk.Some? then Some(disk.value.sha256) else None) then Refused(409)
        else if CarriedRef(previous, request) == "" then Refused(409)
        else
          var retired := WithRun(db, key, FailedRun(previous, now, SUPERSEDED));
          var queued := Enqueue(retired, now, RunKey(course, newId), Replacement(previous, request, now, disk));
          if queued.Refused? then queued
          else Applied(queued.db.(requests := db.requests[course := RetriedRequest(request, now, newId)]))
  }

  // A finished request is reset whole, its pointer to a run included.
  function FreshRequest(now: int, approved: int): Request {
    Request(Requested, now, now, Clamp(approved), None, None, None, None, None)
  }

  predicate Outstanding(s: RequestStatus) { s == Requested || s == Preparing || s == InTraining }

  // `create_model_request`
  function CreateRequest(db: Db, now: int, course: string, approved: int): Outcome {
    if course !in db.courses then Refused(404)
    else if course in db.requests && Outstanding(db.requests[course].status) then Refused(409)
    else Applied(db.(requests := db.requests[course := FreshRequest(now, approved)]))
  }

  // ------------------------------------------------------------------ //
  // The step relation
  // ------------------------------------------------------------------ //

  datatype Event =
    | EnqueueRun(key: RunKey, mode: Mode, ref: string, approved: int, train: int, validation: int, sha: Option<string>)
    | Claim(key: RunKey, owner: string, lease: int, courses: Option<set<string>>, locked: set<RunKey>)
    | Callback(key: RunKey, callback: Callback)
    | RetryRun(course: string, newId: string, disk: Option<OnDisk>)
    | OpenRequest(course: string, approved: int)
    | PatchRequest(course: string, request: Request)     // the free-form admin PATCH
    | RegisterModel(course: string, run: Option<string>, asked: Option<string>, version: Models.Version,
                    setCurrent: bool)
    | WriteModels(course: string, write: Models.Write)    // publication and withdrawal

  function Step(db: Db, now: int, e: Event): Db {
    match e
    case EnqueueRun(key, mode, ref, approved, train, validation, sha) =>
      After(db, Enqueue(db, now, key, NewRun(now, mode, ref, approved, train, validation, sha)))
    case Claim(key, owner, lease, courses, locked) =>
      if owner != "" && lease > 0 && IsNext(db.runs, now, courses, locked, key)
      then WithRun(db, key, ClaimedRun(db.runs[key], now, owner, lease)) else db
    case Callback(key, callback) => After(db, Callbacks(db, now, key, callback))
    case RetryRun(course, newId, disk) => After(db, Retry(db, now, course, newId, disk))
    case OpenRequest(course, approved) => After(db, CreateRequest(db, now, course, approved))
    case PatchRequest(course, request) =>
      if course in db.requests then db.(requests := db.requests[course := request]) else db
    case RegisterModel(course, run, asked, version, setCurrent) =>
      if version.deployment == Models.Online then db
      else After(db, RegisterVersion(db, now, course, run, asked, version, setCurrent))
    case WriteModels(course, write) =>
      if write.Register? then db
      else db.(models := db.models[course := Models.Apply(ModelsOf(db, course), now, write)])
  }

  datatype Timed = At(now: int, event: Event)

  ghost function Execute(db: Db, es: seq<Timed>): Db
    decreases |es|
  {
    if es == [] then db else Execute(Step(db, es[0].now, es[0].event), es[1..])
  }

  // ------------------------------------------------------------------ //
  // The queue's own functions, writing the table in place
  // ------------------------------------------------------------------ //

  lemma {:induction false} OldestExists(runs: RunTable, among: set<RunKey>) returns (oldest: RunKey)
    requires among != {} && among <= runs.Keys
    ensures oldest in among
    ensures forall k :: k in among ==> QueuedBefore(oldest, runs[oldest], k, runs[k])
    decreases among
  {
    var k0 :| k0 in among;
    LeqTotal(k0.id, k0.id);
    oldest := k0;
    if among != {k0} {
      var rest := OldestExists(runs, among - {k0});
      LeqTotal(k0.id, rest.id);
      oldest := if QueuedBefore(k0, runs[k0], rest, runs[rest]) then k0 else rest;
      forall k | k in among ensures QueuedBefore(oldest, runs[oldest], k, runs[k]) {
        if k != k0 && Leq(oldest.id, rest.id) && Leq(rest.id, k.id) { LeqTransitive(oldest.id, rest.id, k.id); }
      }
    }
  }

  // The SELECT: the oldest claimable row no other transaction holds.
  method ChooseNext(rows: RunTable, now: int, courses: Option<set<string>>, locked: set<RunKey>)
      returns (chosen: Option<RunKey>)
    ensures chosen.None? <==> forall k :: k in rows && k !in locked && Wanted(k, courses) ==> !Claimable(rows[k], now)
    ensures chosen.Some? ==> IsNext(rows, now, courses, locked, chosen.value)
  {
    var eligible := set k | k in rows && k !in locked && Wanted(k, courses) && Claimable(rows[k], now);
    if eligible == {} {
      forall k | k in rows && k !in locked && Wanted(k, courses) ensures !Claimable(rows[k], now) {
        assert k !in eligible;
      }
      return None;
    }
    ghost var oldest := OldestExists(rows, eligible);
    assert IsNext(rows, now, courses, locked, oldest);
    var key :| key in rows && IsNext(rows, now, courses, locked, key);
    chosen := Some(key);
  }

  class TrainingRuns {
    var rows: RunTable

    constructor ()
      ensures rows == map[]
    {
      rows := map[];
    }

    // The conditional INSERT; false is ActiveTrainingRunError or a key clash.
    method EnqueueTrainingRun(key: RunKey, now: int, mode: Mode, ref: string, approved: int, train: int,
        validation: int, sha: Option<string>)
      returns (queued: bool)
      modifies this
      ensures queued <==> !Active(old(rows), key.course) && key !in old(rows)
      ensures rows == if queued then old(rows)[key := NewRun(now, mode, ref, approved, train, validation, sha)]
          else old(rows)
    {
      queued := key !in rows && !(exists k :: k in rows && k.course == key.course && !Terminal(rows[k].state));
      if queued {
        rows := rows[key := NewRun(now, mode, ref, approved, train, validation, sha)];
      }
    }

    // Choose and stamp, in one transaction.
    method ClaimNextTrainingRun(owner: string, lease: int, now: int, courses: Option<set<string>>, locked: set<RunKey>)
      returns (claimed: Option<RunKey>)
      requires owner != "" && lease > 0
      modifies this
      ensures claimed.None? <==> forall k :: k in old(rows) && k !in locked && Wanted(k, courses) ==>
          !Claimable(old(rows)[k], now)
      ensures claimed.None? ==> rows == old(rows)
      ensures claimed.Some? ==> IsNext(old(rows), now, courses, locked, claimed.value)
      ensures claimed.Some? ==>
                rows == old(rows)[claimed.value := ClaimedRun(old(rows)[claimed.value], now, owner, lease)]
    {
      claimed := ChooseNext(rows, now, courses, locked);
      if claimed.Some? {
        rows := rows[claimed.value := ClaimedRun(rows[claimed.value], now, owner, lease)];
      }
    }

    method ReleaseTrainingRun(key: RunKey, now: int, error: Option<string>) returns (found: bool)
      modifies this
      ensures found == (key in old(rows))
      ensures rows == if found then old(rows)[key := ReleasedRun(old(rows)[key], now, error)] else old(rows)
    {
      found := key in rows;
      if found {
        var row := rows[key].(state := Queued, updatedAt := now,
                              claimOwner := None, claimedAt := None, claimExpiresAt := None);
        if error.Some? { row := row.(error := error); }
        rows := rows[key := row];
      }
    }

    method FailTrainingRun(key: RunKey, now: int, error: string) returns (found: bool)
      modifies this
      ensures found == (key in old(rows))
      ensures rows == if found then old(rows)[key := FailedRun(old(rows)[key], now, error)] else old(rows)
    {
      found := key in rows;
      if found {
        rows := rows[key := rows[key].(state := Failed, updatedAt := now, error := Some(error),
                                       claimOwner := None, claimedAt := None, claimExpiresAt := None)];
      }
    }

    method SupersedeTrainingRun(key: RunKey, now: int) returns (found: bool)
      modifies this
      ensures found == (key in old(rows))
      ensures rows == if found then old(rows)[key := FailedRun(old(rows)[key], now, SUPERSEDED)] else old(rows)
    {
      found := FailTrainingRun(key, now, SUPERSEDED);
    }

    // False is the ValueError for a blank job id, or an unknown run.
    method MarkTrainingRunSubmitted(key: RunKey, now: int, job: string, train: int, validation: int)
      returns (marked: bool)
      modifies this
      ensures marked == (key in old(rows) && job != "")
      ensures rows == if marked then old(rows)[key := SubmittedRun(old(rows)[key], now, job, train, validation)]
          else old(rows)
    {
      marked := job != "" && key in rows;
      if marked {
        rows := rows[key := rows[key].(state := Submitted, updatedAt := now, jobId := Some(job),
                                       trainExamples := Clamp(train), validationExamples := Clamp(validation),
                                       error := None,
                                       claimOwner := None, claimedAt := None, claimExpiresAt := None)];
      }
    }
  }

  class ModelRequests {
    var rows: map<string, Request>

    constructor ()
      ensures rows == map[]
    {
      rows := map[];
    }

    // False is ActiveModelRequestError; a finished request is reset, its
    // pointer to a run included.
    method CreateModelRequest(course: string, now: int, approved: int) returns (created: bool)
      modifies this
      ensures created <==> course !in old(rows) || !Outstanding(old(rows)[course].status)
      ensures rows == if created then old(rows)[course := FreshRequest(now, approved)] else old(rows)
    {
      created := course !in rows || !Outstanding(rows[course].status);
      if created {
        rows := rows[course := FreshRequest(now, approved)];
      }
    }

    method UpdateModelRequestForRun(course: string, run: string, patched: Request) returns (landed: bool)
      modifies this
      ensures landed <==> course in old(rows) && old(rows)[course].currentRunId in {None, Some(run)}
      ensures rows == if landed then old(rows)[course := patched] else old(rows)
    {
      landed := course in rows && (rows[course].currentRunId.None? || rows[course].currentRunId.value == run);
      if landed { rows := rows[course := patched]; }
    }
  }
}
