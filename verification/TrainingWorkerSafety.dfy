/** No run gets a second job: what the local record, the lease and the row's
    job id guarantee together, and the six ways out of that guarantee. */
module TrainingWorkerSafety {
  import opened Common
  import opened TrainingDatabase
  import opened TrainingWorker
  import Laws = TrainingDatabaseLaws

  // ------------------------------------------------------------------ //
  // Once a job is known
  // ------------------------------------------------------------------ //

  // A worker that has claimed the run, or has already passed its duplicate
  // check, and has not called the launcher yet.
  predicate PastCheck(pc: Pc, key: RunKey) {
    (pc.Cleared? || pc.Armed?) && pc.ticket.key == key
  }

  predicate BeforeLaunch(pc: Pc, key: RunKey) {
    PastCheck(pc, key) || (pc.Holding? && pc.ticket.key == key)
  }

  // What the backend does in one event of the system.
  ghost function DbEvent(s: Sys, e: Action): Option<TrainingDatabase.Event> {
    match e
    case Backend(event) => if FromWorker(event) then None else Some(event)
    case ClaimRun(w, key, owner, lease, courses, locked, _) =>
      if PcOf(s, w) == Idle then Some(Claim(key, owner, lease, courses, locked)) else None
    case GiveBack(w, error, permanent, applied) =>
      if applied && PcOf(s, w).Cleared?
      then Some(Callback(PcOf(s, w).ticket.key, if permanent then Refusal(error) else Release(Some(error)))) else None
    case ReportSubmission(w, train, validation, applied, _) =>
      if applied && PcOf(s, w).Reporting?
      then Some(Callback(PcOf(s, w).key, SubmittedReport(PcOf(s, w).job, train, validation))) else None
    case ReportFailure(w, error, applied) =>
      if applied && PcOf(s, w).Launched? && PcOf(s, w).printed.None?
      then Some(Callback(PcOf(s, w).ticket.key, SubmissionFailed(error))) else None
    case Reconcile(id, train, validation, applied, _) =>
      if applied && id in s.records && s.records[id].job.Some? && !s.records[id].reported
      then Some(Callback(RunKey(s.records[id].course, id), SubmittedReport(s.records[id].job.value, train, validation)))
          else None
    case _ => None
  }

  lemma DatabaseOf(s: Sys, e: Action)
    ensures var d := DbEvent(s, e);
            Do(s, e).db == if d.Some? then Step(s.db, s.now, d.value) else s.db
  {
  }

  // Everybody else's transactions reach the queue, a job's own completion and
  // failure among them; what only a worker sends comes from workers.
  lemma OutsideEventsReachTheQueue(s: Sys, e: TrainingDatabase.Event)
    ensures var t := Do(s, Backend(e));
            t.records == s.records && t.workers == s.workers && t.jobs == s.jobs && t.now == s.now
            && t.db == match e
                       case Claim(_, _, _, _, _) => s.db
                       case Callback(_, Release(_)) => s.db
                       case Callback(_, SubmittedReport(_, _, _)) => s.db
                       case Callback(_, SubmissionFailed(_)) => s.db
                       case Callback(_, Refusal(_)) => s.db
                       case _ => Step(s.db, s.now, e)
  {
  }

  lemma RecordsKeepJobs(s: Sys, e: Action, id: string)
    requires RecordedJob(s, id).Some?
    ensures RecordedJob(Do(s, e), id).Some?
  {
  }

  lemma RowsKeepJobs(s: Sys, e: Action, key: RunKey)
    requires Laws.Sound(s.db.runs) && key in s.db.runs
    ensures key in Do(s, e).db.runs && Laws.Forward(s.db.runs[key], Do(s, e).db.runs[key])
    ensures Laws.Sound(Do(s, e).db.runs)
  {
    SystemKeepsQueueSound(s, e);
  }

  lemma SystemKeepsQueueSound(s: Sys, e: Action)
    requires Laws.Sound(s.db.runs)
    ensures Laws.Sound(Do(s, e).db.runs) && Laws.Advanced(s.db.runs, Do(s, e).db.runs)
  {
    DatabaseOf(s, e);
    var d := DbEvent(s, e);
    if d.Some? { Laws.StepKeeps(s.db, s.now, d.value); }
  }

  lemma OnlyTheCheckClears(s: Sys, e: Action, w: nat, key: RunKey)
    requires PastCheck(PcOf(Do(s, e), w), key) && !PastCheck(PcOf(s, w), key)
    ensures e.CheckDuplicate? && e.w == w && RecordedJob(s, key.id).None?
    ensures PcOf(s, w).Holding? && PcOf(s, w).ticket.key == key && PcOf(Do(s, e), w).ticket == PcOf(s, w).ticket
  {
  }

  lemma OnlyAClaimHolds(s: Sys, e: Action, w: nat, key: RunKey)
    requires BeforeLaunch(PcOf(Do(s, e), w), key) && !BeforeLaunch(PcOf(s, w), key)
    ensures e.ClaimRun? && e.w == w && e.key == key && e.delivered && PcOf(s, w) == Idle
    ensures key in s.db.runs && Claimable(s.db.runs[key], s.now)
  {
  }

  // ------------------------------------------------------------------ //
  // One worker
  // ------------------------------------------------------------------ //

  // A job is recorded and this worker has not passed its duplicate check, or
  // one is on the row and it holds no claim from before; whatever the others
  // are doing.
  ghost predicate KnownTo(s: Sys, w: nat, key: RunKey) {
    (RecordedJob(s, key.id).Some? && !PastCheck(PcOf(s, w), key))
    || (key in s.db.runs && s.db.runs[key].jobId.Some? && !BeforeLaunch(PcOf(s, w), key))
  }

  predicate Calls(s: Sys, e: Action, w: nat, key: RunKey) {
    e.Launch? && e.w == w && PcOf(s, w).Armed? && PcOf(s, w).ticket.key == key
  }

  ghost predicate EverCalls(s: Sys, es: seq<Action>, w: nat, key: RunKey)
    decreases |es|
  {
    es != [] && (Calls(s, es[0], w, key) || EverCalls(Do(s, es[0]), es[1..], w, key))
  }

  lemma KnownToStep(s: Sys, e: Action, w: nat, key: RunKey)
    requires Laws.Sound(s.db.runs) && KnownTo(s, w, key)
    ensures KnownTo(Do(s, e), w, key) && !Calls(s, e, w, key)
  {
    if RecordedJob(s, key.id).Some? && !PastCheck(PcOf(s, w), key) {
      RecordsKeepJobs(s, e, key.id);
      if PastCheck(PcOf(Do(s, e), w), key) { OnlyTheCheckClears(s, e, w, key); }
    } else {
      RowsKeepJobs(s, e, key);
      if BeforeLaunch(PcOf(Do(s, e), w), key) { OnlyAClaimHolds(s, e, w, key); }
    }
  }

  // Main result, with no assumption about leases, clocks, crashes or the
  // other workers: once a job id is in the local record, a worker that makes
  // its duplicate check afterwards never calls the launcher for that run; nor
  // does one whose claim would have to come after the job was on the row.
  lemma {:induction false} NeverCallsOnceKnown(s: Sys, es: seq<Action>, w: nat, key: RunKey)
    requires Laws.Sound(s.db.runs) && KnownTo(s, w, key)
    ensures !EverCalls(s, es, w, key)
    decreases |es|
  {
    if es != [] {
      KnownToStep(s, es[0], w, key);
      SystemKeepsQueueSound(s, es[0]);
      NeverCallsOnceKnown(Do(s, es[0]), es[1..], w, key);
    }
  }

  lemma OnlyCallsStartJobs(s: Sys, e: Action, key: RunKey)
    requires forall w :: !Calls(s, e, w, key)
    ensures JobsOf(Do(s, e), key) == JobsOf(s, key)
  {
    if e.Launch? { assert !Calls(s, e, e.w, key); }
  }

  // ------------------------------------------------------------------ //
  // At most one job per run
  // ------------------------------------------------------------------ //

  // The launcher started a job and the local record does not have it yet.
  predicate Unrecorded(pc: Pc, key: RunKey) {
    pc.Launched? && pc.printed.Some? && pc.ticket.key == key
  }

  predicate InWindow(pc: Pc, key: RunKey) {
    (pc.Holding? || pc.Cleared? || pc.Armed? || pc.Launched?) && pc.ticket.key == key
  }

  // What a second job for a run takes, one of:
  //  - the launcher starts a job on a lease that has run out, or starts one
  //    and does not print its id;
  //  - the lease runs out, or the worker dies, after the launcher started a
  //    job and before the job is in the local record;
  //  - a worker whose lease has run out hands the run back, and the backend
  //    accepts it.
  ghost predicate Hazard(s: Sys, e: Action, key: RunKey) {
    match e
    case Launch(w, job, printed) =>
      PcOf(s, w).Armed? && PcOf(s, w).ticket.key == key && job.Some? && (PcOf(s, w).ticket.expires <= s.now || !printed)
    case Tick(elapsed) => exists w :: Unrecorded(PcOf(s, w), key) && PcOf(s, w).ticket.expires <= s.now + elapsed
    case Crash(w) => Unrecorded(PcOf(s, w), key)
    case GiveBack(w, error, permanent, applied) =>
      PcOf(s, w).Cleared? && PcOf(s, w).ticket.key == key && PcOf(s, w).ticket.expires <= s.now
      && applied && !permanent && Accepted(s, key, Release(Some(error)))
    case ReportFailure(w, error, applied) =>
      PcOf(s, w).Launched? && PcOf(s, w).printed.None?
      && PcOf(s, w).ticket.key == key && PcOf(s, w).ticket.expires <= s.now
      && applied && Accepted(s, key, SubmissionFailed(error))
    case _ => false
  }

  ghost predicate HazardFree(s: Sys, es: seq<Action>, key: RunKey)
    decreases |es|
  {
    es == [] || (!Hazard(s, es[0], key) && HazardFree(Do(s, es[0]), es[1..], key))
  }

  ghost predicate Live(s: Sys, w: nat, key: RunKey) {
    InWindow(PcOf(s, w), key) && s.now < PcOf(s, w).ticket.expires
  }

  // The row still belongs to the ticket, or no worker can ever take it again.
  predicate HeldRow(row: Run, t: Ticket) {
    row.jobId.Some? || Terminal(row.state)
    || (row.state == Claimed && row.attempt == t.attempt && row.claimExpiresAt == Some(t.expires))
  }

  ghost predicate LeasesHold(s: Sys, key: RunKey) {
    (forall w | Live(s, w, key) :: key in s.db.runs && HeldRow(s.db.runs[key], PcOf(s, w).ticket))
    && (forall w, v | Live(s, w, key) && Live(s, v, key) :: w == v)
  }

  ghost predicate JobsAccounted(s: Sys, key: RunKey) {
    |JobsOf(s, key)| <= 1
    && (JobsOf(s, key) != [] ==>
          RecordedJob(s, key.id).Some? || exists w :: Live(s, w, key) && Unrecorded(PcOf(s, w), key))
    && (forall w | Live(s, w, key) && PastCheck(PcOf(s, w), key) :: JobsOf(s, key) == [])
  }

  ghost predicate Guarded(s: Sys, key: RunKey) {
    Laws.Sound(s.db.runs) && LeasesHold(s, key) && JobsAccounted(s, key)
  }

  lemma LiveComesFromAClaim(s: Sys, e: Action, w: nat, key: RunKey)
    requires Live(Do(s, e), w, key)
    ensures (Live(s, w, key) && PcOf(Do(s, e), w).ticket == PcOf(s, w).ticket)
            || (e.ClaimRun? && e.w == w && e.key == key && PcOf(s, w) == Idle && key in s.db.runs
                && Claimable(s.db.runs[key], s.now)
                && PcOf(Do(s, e), w).ticket == Ticket(key, s.db.runs[key].attempt + 1, s.now + e.lease)
                && Do(s, e).db == WithRun(s.db, key, ClaimedRun(s.db.runs[key], s.now, e.owner, e.lease)))
  {
  }

  lemma HandedBackByAWindowWorker(s: Sys, e: Action, key: RunKey) returns (w: nat)
    requires DbEvent(s, e).Some? && Laws.HandsBack(DbEvent(s, e).value, key) && !Hazard(s, e, key)
    requires Accepted(s, key, DbEvent(s, e).value.callback)
    ensures Live(s, w, key) && PcOf(Do(s, e), w) == Idle
  {
    w := e.w;
  }

  // A hand-back that leaves a live claim alone was refused.
  lemma HandBackKeepsRow(s: Sys, e: Action, w: nat, key: RunKey)
    requires Guarded(s, key) && !Hazard(s, e, key) && Live(s, w, key) && PcOf(Do(s, e), w) != Idle
    requires DbEvent(s, e).Some? && Laws.HandsBack(DbEvent(s, e).value, key)
    ensures Do(s, e).db == s.db
  {
    DatabaseOf(s, e);
    if Accepted(s, key, DbEvent(s, e).value.callback) {
      var v := HandedBackByAWindowWorker(s, e, key);
      assert false;
    }
  }

  // What any other backend event does to the row of a live claim.
  lemma OtherEventsKeepRow(s: Sys, e: Action, w: nat, key: RunKey)
    requires Guarded(s, key) && Live(s, w, key)
    requires DbEvent(s, e).Some? && !Laws.HandsBack(DbEvent(s, e).value, key)
    ensures key in Do(s, e).db.runs
    ensures var row := Do(s, e).db.runs[key];
            row == s.db.runs[key] || Terminal(row.state) || row.jobId.Some?
  {
    DatabaseOf(s, e);
    RowsKeepJobs(s, e, key);
    var d := DbEvent(s, e).value;
    if d.Claim? {
      ClaimKeepsHeldRow(s.db, s.now, d, key, PcOf(s, w).ticket);
    } else {
      Laws.UntouchedFinishedOrSubmitted(s.db, s.now, d, key);
    }
  }

  lemma ClaimKeepsHeldRow(db: Db, now: int, d: TrainingDatabase.Event, key: RunKey, t: Ticket)
    requires d.Claim? && key in db.runs && HeldRow(db.runs[key], t) && now < t.expires
    ensures key in Step(db, now, d).runs && Step(db, now, d).runs[key] == db.runs[key]
  {
  }

  lemma RowStaysHeld(s: Sys, e: Action, w: nat, key: RunKey)
    requires Guarded(s, key) && !Hazard(s, e, key) && Live(s, w, key) && Live(Do(s, e), w, key)
    ensures key in Do(s, e).db.runs && HeldRow(Do(s, e).db.runs[key], PcOf(s, w).ticket)
  {
    DatabaseOf(s, e);
    var d := DbEvent(s, e);
    if d.Some? {
      if Laws.HandsBack(d.value, key) { HandBackKeepsRow(s, e, w, key); } else { OtherEventsKeepRow(s, e, w, key); }
    }
  }

  lemma LeasesStayExclusive(s: Sys, e: Action, key: RunKey)
    requires Guarded(s, key) && !Hazard(s, e, key)
    ensures LeasesHold(Do(s, e), key)
  {
    var next := Do(s, e);
    forall w | Live(next, w, key) ensures key in next.db.runs && HeldRow(next.db.runs[key], PcOf(next, w).ticket) {
      LiveComesFromAClaim(s, e, w, key);
      if Live(s, w, key) && PcOf(next, w).ticket == PcOf(s, w).ticket { RowStaysHeld(s, e, w, key); }
    }
    forall w, v | Live(next, w, key) && Live(next, v, key) ensures w == v {
      LiveComesFromAClaim(s, e, w, key);
      LiveComesFromAClaim(s, e, v, key);
    }
  }

  lemma JobsStayAccounted(s: Sys, e: Action, key: RunKey)
    requires Guarded(s, key) && !Hazard(s, e, key)
    ensures JobsAccounted(Do(s, e), key)
  {
    var next := Do(s, e);
    if e.Launch? && PcOf(s, e.w).Armed? && PcOf(s, e.w).ticket.key == key && e.job.Some? {
      assert Live(s, e.w, key) && PastCheck(PcOf(s, e.w), key);
      assert Live(next, e.w, key) && Unrecorded(PcOf(next, e.w), key);
    } else {
      JobsSame(s, e, key);
      if JobsOf(s, key) != [] {
        if RecordedJob(s, key.id).Some? { RecordsKeepJobs(s, e, key.id); }
        else {
          var w :| Live(s, w, key) && Unrecorded(PcOf(s, w), key);
          UnrecordedUntilRecorded(s, e, w, key);
        }
      }
    }
    forall w | Live(next, w, key) && PastCheck(PcOf(next, w), key) ensures JobsOf(next, key) == [] {
      NothingStartedPastCheck(s, e, w, key);
    }
  }

  lemma JobsSame(s: Sys, e: Action, key: RunKey)
    requires !(e.Launch? && PcOf(s, e.w).Armed? && PcOf(s, e.w).ticket.key == key && e.job.Some?)
    ensures JobsOf(Do(s, e), key) == JobsOf(s, key)
  {
  }

  lemma UnrecordedUntilRecorded(s: Sys, e: Action, w: nat, key: RunKey)
    requires Live(s, w, key) && Unrecorded(PcOf(s, w), key) && !Hazard(s, e, key)
    ensures RecordedJob(Do(s, e), key.id).Some? || (Live(Do(s, e), w, key) && Unrecorded(PcOf(Do(s, e), w), key))
  {
  }

  lemma NothingStartedPastCheck(s: Sys, e: Action, w: nat, key: RunKey)
    requires Guarded(s, key) && !Hazard(s, e, key) && Live(Do(s, e), w, key) && PastCheck(PcOf(Do(s, e), w), key)
    ensures JobsOf(Do(s, e), key) == []
  {
    LiveComesFromAClaim(s, e, w, key);
    if e.Launch? && PcOf(s, e.w).Armed? && PcOf(s, e.w).ticket.key == key && e.job.Some? {
      assert Live(s, e.w, key) && Live(s, w, key);
      assert false;
    } else {
      JobsSame(s, e, key);
      if !PastCheck(PcOf(s, w), key) { OnlyTheCheckClears(s, e, w, key); }
    }
  }

  lemma {:induction false} GuardedAlways(s: Sys, es: seq<Action>, key: RunKey)
    requires Guarded(s, key) && HazardFree(s, es, key)
    ensures Guarded(Perform(s, es), key)
    decreases |es|
  {
    if es != [] {
      SystemKeepsQueueSound(s, es[0]);
      LeasesStayExclusive(s, es[0], key);
      JobsStayAccounted(s, es[0], key);
      GuardedAlways(Do(s, es[0]), es[1..], key);
    }
  }

  // Main result. Across every interleaving of workers, claims whose replies
  // are lost, expiring leases, lost or duplicated reports, reconciliations,
  // crashes, retries and completions: a run that met none of the hazards has
  // been given at most one job.
  lemma AtMostOneJob(courses: set<string>, es: seq<Action>, key: RunKey)
    requires HazardFree(Start(courses), es, key)
    ensures |JobsOf(Perform(Start(courses), es), key)| <= 1
  {
    GuardedAlways(Start(courses), es, key);
  }

  // ------------------------------------------------------------------ //
  // Each kind of hazard can lead to a second job
  // ------------------------------------------------------------------ //

  const LEASE: int := 900 * SECOND

  // A run a worker could take, with three workers free to take it.
  ghost predicate Takable(s: Sys, key: RunKey) {
    key in s.db.runs && Claimable(s.db.runs[key], s.now) && RecordedJob(s, key.id).None?
    && PcOf(s, 0) == PcOf(s, 1) == PcOf(s, 2) == Idle
  }

  ghost function Take(s: Sys, w: nat, key: RunKey): seq<Action> {
    [ClaimRun(w, key, "worker", LEASE, None, s.db.runs.Keys - {key}, true), CheckDuplicate(w), RecordIntent(w)]
  }

  lemma PerformOne(s: Sys, e: Action)
    ensures Perform(s, [e]) == Do(s, e)
  {
    assert Perform(s, [e]) == Perform(Do(s, e), [e][1..]);
  }

  lemma Taking(s: Sys, w: nat, key: RunKey) returns (t: Sys)
    requires key in s.db.runs && Claimable(s.db.runs[key], s.now) && RecordedJob(s, key.id).None? && PcOf(s, w) == Idle
    ensures t == Perform(s, Take(s, w, key))
    ensures PcOf(t, w) == Armed(Ticket(key, s.db.runs[key].attempt + 1, s.now + LEASE))
    ensures forall v | v != w :: PcOf(t, v) == PcOf(s, v)
    ensures t.jobs == s.jobs && t.now == s.now && RecordedJob(t, key.id).None?
    ensures t.db == WithRun(s.db, key, ClaimedRun(s.db.runs[key], s.now, "worker", LEASE))
  {
    var es := Take(s, w, key);
    LeqTotal(key.id, key.id);
    assert IsNext(s.db.runs, s.now, None, s.db.runs.Keys - {key}, key);
    var a := Do(s, es[0]);
    var b := Do(a, es[1]);
    t := Do(b, es[2]);
    PerformOne(b, es[2]);
    assert es[1..][1..] == [es[2]];
    assert Perform(s, es) == Perform(a, es[1..]) == Perform(b, es[1..][1..]);
  }

  // Take a run and start a job for it.
  ghost function Submit(s: Sys, w: nat, key: RunKey, job: string, printed: bool): seq<Action> {
    Take(s, w, key) + [Launch(w, Some(job), printed)]
  }

  lemma Submitting(s: Sys, w: nat, key: RunKey, job: string, printed: bool) returns (t: Sys)
    requires key in s.db.runs && Claimable(s.db.runs[key], s.now) && RecordedJob(s, key.id).None? && PcOf(s, w) == Idle
    ensures t == Perform(s, Submit(s, w, key, job, printed))
    ensures PcOf(t, w).Launched? && PcOf(t, w).ticket.key == key
        && PcOf(t, w).printed == (if printed then Some(job) else None)
    ensures forall v | v != w :: PcOf(t, v) == PcOf(s, v)
    ensures JobsOf(t, key) == JobsOf(s, key) + [job] && t.now == s.now && RecordedJob(t, key.id).None?
    ensures t.db == WithRun(s.db, key, ClaimedRun(s.db.runs[key], s.now, "worker", LEASE))
  {
    var a := Taking(s, w, key);
    PerformAppend(s, Take(s, w, key), [Launch(w, Some(job), printed)]);
    PerformOne(a, Launch(w, Some(job), printed));
    t := Do(a, Launch(w, Some(job), printed));
  }

  lemma LaunchingAdds(s: Sys, w: nat, key: RunKey, job: string)
    requires PcOf(s, w).Armed? && PcOf(s, w).ticket.key == key
    ensures JobsOf(Do(s, Launch(w, Some(job), true)), key) == JobsOf(s, key) + [job]
  {
  }

  // The lease outlived before the launcher was even called.
  lemma LateLaunchDuplicates(s: Sys, key: RunKey)
    requires Takable(s, key)
    ensures var a := Do(Perform(s, Take(s, 0, key)), Tick(LEASE));
            var z := Do(Perform(a, Submit(a, 1, key, "2", true)), Launch(0, Some("1"), true));
            JobsOf(z, key) == JobsOf(s, key) + ["2", "1"]
  {
    var t := Taking(s, 0, key);
    var a := Do(t, Tick(LEASE));
    assert Claimable(a.db.runs[key], a.now);
    var b := Submitting(a, 1, key, "2", true);
    assert PcOf(b, 0) == PcOf(a, 0);
    LaunchingAdds(b, 0, key, "1");
  }

  // A crash between the launcher and the local record.
  lemma CrashAfterLaunchDuplicates(s: Sys, key: RunKey)
    requires Takable(s, key)
    ensures var a := Do(Do(Perform(s, Submit(s, 0, key, "1", true)), Crash(0)), Tick(LEASE));
            JobsOf(Perform(a, Submit(a, 1, key, "2", true)), key) == JobsOf(s, key) + ["1", "2"]
  {
    var t := Submitting(s, 0, key, "1", true);
    var a := Do(Do(t, Crash(0)), Tick(LEASE));
    assert Claimable(a.db.runs[key], a.now);
    var b := Submitting(a, 1, key, "2", true);
  }

  // The lease outlived between the launcher and the local record.
  lemma SlowRecordDuplicates(s: Sys, key: RunKey)
    requires Takable(s, key)
    ensures var a := Do(Perform(s, Submit(s, 0, key, "1", true)), Tick(LEASE));
            JobsOf(Perform(a, Submit(a, 1, key, "2", true)), key) == JobsOf(s, key) + ["1", "2"]
  {
    var t := Submitting(s, 0, key, "1", true);
    var a := Do(t, Tick(LEASE));
    assert Claimable(a.db.runs[key], a.now);
    var b := Submitting(a, 1, key, "2", true);
  }

  // A run handed back, with nothing else changed.
  ghost predicate HandedBack(was: Sys, s: Sys, w: nat, key: RunKey) {
    key in was.db.runs && s.db.runs.Keys == was.db.runs.Keys && Claimable(s.db.runs[key], s.now)
    && s.records == was.records && s.jobs == was.jobs && s.now == was.now && s.workers == was.workers[w := Idle]
  }

  lemma FailureReportHandsBack(s: Sys, key: RunKey)
    requires Laws.Sound(s.db.runs) && key in s.db.runs && s.db.runs[key].state == Claimed && OwnsRequest(s.db, key)
    requires PcOf(s, 0).Launched? && PcOf(s, 0).printed.None? && PcOf(s, 0).ticket.key == key
    ensures HandedBack(s, Do(s, ReportFailure(0, "timed out", true)), 0, key)
  {
    Laws.CallbackWritesOneRow(s.db, s.now, key, SubmissionFailed("timed out"));
  }

  lemma ReleaseHandsBack(s: Sys, key: RunKey)
    requires Laws.Sound(s.db.runs) && key in s.db.runs && s.db.runs[key].state == Claimed
    requires PcOf(s, 0).Cleared? && PcOf(s, 0).ticket.key == key
    ensures HandedBack(s, Do(s, GiveBack(0, "late", false, true)), 0, key)
  {
    Laws.CallbackWritesOneRow(s.db, s.now, key, Release(Some("late")));
  }

  // A job whose id the launcher did not print: reported as a failed
  // submission, well within the lease, and submitted again.
  lemma UnprintedJobDuplicates(s: Sys, key: RunKey)
    requires Takable(s, key) && Laws.Sound(s.db.runs) && OwnsRequest(s.db, key)
    ensures var b := Do(Perform(s, Submit(s, 0, key, "1", false)), ReportFailure(0, "timed out", true));
            JobsOf(Perform(b, Submit(b, 1, key, "2", true)), key) == JobsOf(s, key) + ["1", "2"]
  {
    var b := UnprintedHandedBack(s, key);
    var c := Submitting(b, 1, key, "2", true);
  }

  lemma UnprintedHandedBack(s: Sys, key: RunKey) returns (b: Sys)
    requires Takable(s, key) && Laws.Sound(s.db.runs) && OwnsRequest(s.db, key)
    ensures b == Do(Perform(s, Submit(s, 0, key, "1", false)), ReportFailure(0, "timed out", true))
    ensures key in b.db.runs && Claimable(b.db.runs[key], b.now) && RecordedJob(b, key.id).None?
    ensures PcOf(b, 1) == Idle && JobsOf(b, key) == JobsOf(s, key) + ["1"]
  {
    var a := Submitting(s, 0, key, "1", false);
    TakingKeepsSound(s, Submit(s, 0, key, "1", false));
    assert OwnsRequest(a.db, key);
    FailureReportHandsBack(a, key);
    b := Do(a, ReportFailure(0, "timed out", true));
  }

  lemma {:induction false} TakingKeepsSound(s: Sys, es: seq<Action>)
    requires Laws.Sound(s.db.runs)
    ensures Laws.Sound(Perform(s, es).db.runs)
    decreases |es|
  {
    if es != [] {
      SystemKeepsQueueSound(s, es[0]);
      TakingKeepsSound(Do(s, es[0]), es[1..]);
    }
  }

  // A worker that outlived its lease hands back a run another worker holds,
  // and a third takes it while the second is about to launch.
  lemma LateReleaseDuplicates(s: Sys, key: RunKey)
    requires Takable(s, key) && Laws.Sound(s.db.runs)
    ensures var a := Do(Perform(s, Hesitate(s, key)), Tick(LEASE));
            var b := Do(Perform(a, Take(a, 1, key)), GiveBack(0, "late", false, true));
            var z := Do(Perform(b, Submit(b, 2, key, "2", true)), Launch(1, Some("1"), true));
            JobsOf(z, key) == JobsOf(s, key) + ["2", "1"]
  {
    var a := Outlasting(s, key);
    var b := HandedBackLate(a, key);
    BothLaunch(b, key);
  }

  lemma BothLaunch(b: Sys, key: RunKey)
    requires key in b.db.runs && Claimable(b.db.runs[key], b.now) && RecordedJob(b, key.id).None? && PcOf(b, 2) == Idle
    requires PcOf(b, 1).Armed? && PcOf(b, 1).ticket.key == key
    ensures var z := Do(Perform(b, Submit(b, 2, key, "2", true)), Launch(1, Some("1"), true));
            JobsOf(z, key) == JobsOf(b, key) + ["2", "1"]
  {
    var c := Submitting(b, 2, key, "2", true);
    assert PcOf(c, 1) == PcOf(b, 1);
    LaunchingAdds(c, 1, key, "1");
  }

  lemma Outlasting(s: Sys, key: RunKey) returns (a: Sys)
    requires Takable(s, key) && Laws.Sound(s.db.runs)
    ensures a == Do(Perform(s, Hesitate(s, key)), Tick(LEASE))
    ensures Laws.Sound(a.db.runs) && RecordedJob(a, key.id).None?
    ensures key in a.db.runs && Claimable(a.db.runs[key], a.now)
    ensures PcOf(a, 0).Cleared? && PcOf(a, 0).ticket.key == key && PcOf(a, 1) == PcOf(a, 2) == Idle && a.jobs == s.jobs
  {
    var t := Hesitating(s, key);
    TakingKeepsSound(s, Hesitate(s, key));
    a := Do(t, Tick(LEASE));
  }

  // Take a run and call the launcher, which fails.
  ghost function Attempt(s: Sys, w: nat, key: RunKey): seq<Action> { Take(s, w, key) + [Launch(w, None, false)] }

  // A worker that outlived its lease reports a submission that failed, and
  // the run another worker holds is queued again.
  lemma LateFailureReportDuplicates(s: Sys, key: RunKey)
    requires Takable(s, key) && Laws.Sound(s.db.runs) && OwnsRequest(s.db, key)
    ensures var a := Do(Perform(s, Attempt(s, 0, key)), Tick(LEASE));
            var b := Do(Perform(a, Take(a, 1, key)), ReportFailure(0, "timed out", true));
            var z := Do(Perform(b, Submit(b, 2, key, "2", true)), Launch(1, Some("1"), true));
            JobsOf(z, key) == JobsOf(s, key) + ["2", "1"]
  {
    var a := Failing(s, key);
    var b := FailedLate(a, key);
    BothLaunch(b, key);
  }

  lemma Failing(s: Sys, key: RunKey) returns (a: Sys)
    requires Takable(s, key) && Laws.Sound(s.db.runs)
    ensures a == Do(Perform(s, Attempt(s, 0, key)), Tick(LEASE))
    ensures Laws.Sound(a.db.runs) && RecordedJob(a, key.id).None?
    ensures key in a.db.runs && Claimable(a.db.runs[key], a.now)
    ensures PcOf(a, 0).Launched? && PcOf(a, 0).printed.None? && PcOf(a, 0).ticket.key == key
    ensures PcOf(a, 1) == PcOf(a, 2) == Idle && JobsOf(a, key) == JobsOf(s, key) && a.db.requests == s.db.requests
  {
    var t := Taking(s, 0, key);
    TakingKeepsSound(s, Take(s, 0, key));
    PerformAppend(s, Take(s, 0, key), [Launch(0, None, false)]);
    PerformOne(t, Launch(0, None, false));
    a := Do(Do(t, Launch(0, None, false)), Tick(LEASE));
  }

  lemma FailedLate(a: Sys, key: RunKey) returns (b: Sys)
    requires Laws.Sound(a.db.runs) && RecordedJob(a, key.id).None?
    requires key in a.db.runs && Claimable(a.db.runs[key], a.now)
    requires PcOf(a, 0).Launched? && PcOf(a, 0).printed.None? && PcOf(a, 0).ticket.key == key && OwnsRequest(a.db, key)
    requires PcOf(a, 1) == PcOf(a, 2) == Idle
    ensures b == Do(Perform(a, Take(a, 1, key)), ReportFailure(0, "timed out", true))
    ensures key in b.db.runs && Claimable(b.db.runs[key], b.now) && RecordedJob(b, key.id).None?
    ensures PcOf(b, 2) == Idle && PcOf(b, 1).Armed? && PcOf(b, 1).ticket.key == key && b.jobs == a.jobs
  {
    var c := Taking(a, 1, key);
    TakingKeepsSound(a, Take(a, 1, key));
    FailureReportHandsBack(c, key);
    b := Do(c, ReportFailure(0, "timed out", true));
  }

  lemma HandedBackLate(a: Sys, key: RunKey) returns (b: Sys)
    requires Laws.Sound(a.db.runs) && RecordedJob(a, key.id).None?
    requires key in a.db.runs && Claimable(a.db.runs[key], a.now)
    requires PcOf(a, 0).Cleared? && PcOf(a, 0).ticket.key == key && PcOf(a, 1) == PcOf(a, 2) == Idle
    ensures b == Do(Perform(a, Take(a, 1, key)), GiveBack(0, "late", false, true))
    ensures key in b.db.runs && Claimable(b.db.runs[key], b.now) && RecordedJob(b, key.id).None?
    ensures PcOf(b, 2) == Idle && PcOf(b, 1).Armed? && PcOf(b, 1).ticket.key == key && b.jobs == a.jobs
  {
    var c := Taking(a, 1, key);
    TakingKeepsSound(a, Take(a, 1, key));
    ReleaseHandsBack(c, key);
    b := Do(c, GiveBack(0, "late", false, true));
  }

  ghost function Hesitate(s: Sys, key: RunKey): seq<Action> { Take(s, 0, key)[..2] }

  lemma Hesitating(s: Sys, key: RunKey) returns (t: Sys)
    requires Takable(s, key)
    ensures t == Perform(s, Hesitate(s, key))
    ensures PcOf(t, 0) == Cleared(Ticket(key, s.db.runs[key].attempt + 1, s.now + LEASE))
    ensures forall v | v != 0 :: PcOf(t, v) == PcOf(s, v)
    ensures t.jobs == s.jobs && t.now == s.now && RecordedJob(t, key.id).None?
    ensures t.db == WithRun(s.db, key, ClaimedRun(s.db.runs[key], s.now, "worker", LEASE))
  {
    var es := Hesitate(s, key);
    LeqTotal(key.id, key.id);
    assert IsNext(s.db.runs, s.now, None, s.db.runs.Keys - {key}, key);
    var a := Do(s, es[0]);
    t := Do(a, es[1]);
    PerformOne(a, es[1]);
    assert es[1..] == [es[1]];
    assert Perform(s, es) == Perform(a, es[1..]);
  }
}
