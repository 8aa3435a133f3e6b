/** No job id is invented: every one the local records, the workers or the
    queue name was produced by a launcher call for a run with that id
    (`backend/app/db_training_runs.py:409-410`,
    `training/run_training_queue.py:441-727`). Records are filed by run id
    alone, so the course is left open. */
module JobIds {
  import opened Common
  import opened TrainingDatabase
  import opened TrainingWorker
  import opened TrainingWorkerSafety
  import Laws = TrainingDatabaseLaws

  ghost predicate Genuine(s: Sys, id: string, job: string) { exists c :: job in JobsOf(s, RunKey(c, id)) }

  ghost predicate RecordsGenuine(s: Sys) {
    forall id :: RecordedJob(s, id).Some? ==> Genuine(s, id, RecordedJob(s, id).value)
  }

  ghost predicate PcGenuine(s: Sys, pc: Pc) {
    match pc
    case Launched(ticket, printed) => printed.Some? ==> Genuine(s, ticket.key.id, printed.value)
    case Reporting(key, job) => Genuine(s, key.id, job)
    case _ => true
  }

  ghost predicate WorkersGenuine(s: Sys) { forall w :: PcGenuine(s, PcOf(s, w)) }

  ghost predicate RowsGenuine(s: Sys) {
    forall key :: key in s.db.runs && s.db.runs[key].jobId.Some? ==> Genuine(s, key.id, s.db.runs[key].jobId.value)
  }

  // A completion is the one report whose job id comes from elsewhere: from
  // the job itself.
  ghost predicate Honest(s: Sys, e: Action) {
    e.Backend? && e.event.Callback? && e.event.callback.Completed? && e.event.callback.report.jobId.Some? ==>
      Genuine(s, e.event.key.id, e.event.callback.report.jobId.value)
  }

  ghost predicate AllHonest(s: Sys, es: seq<Action>)
    decreases |es|
  {
    es == [] || (Honest(s, es[0]) && AllHonest(Do(s, es[0]), es[1..]))
  }

  lemma JobsGrow(s: Sys, e: Action, key: RunKey)
    ensures JobsOf(s, key) <= JobsOf(Do(s, e), key)
  {
  }

  lemma GenuineStays(s: Sys, e: Action, id: string, job: string)
    requires Genuine(s, id, job)
    ensures Genuine(Do(s, e), id, job)
  {
    var c :| job in JobsOf(s, RunKey(c, id));
    JobsGrow(s, e, RunKey(c, id));
    assert job in JobsOf(Do(s, e), RunKey(c, id));
  }

  // Where a newly recorded job id comes from.
  lemma RecordedFrom(s: Sys, e: Action, id: string)
    requires RecordedJob(Do(s, e), id).Some? && RecordedJob(Do(s, e), id) != RecordedJob(s, id)
    ensures var job := RecordedJob(Do(s, e), id).value;
            (e.RecordJob? && PcOf(s, e.w).Launched? && PcOf(s, e.w).ticket.key.id == id
             && PcOf(s, e.w).printed == Some(job))
            || (e.ReportSubmission? && PcOf(s, e.w).Reporting? && PcOf(s, e.w).key.id == id && PcOf(s, e.w).job == job)
            || (e.NodeRecords? && e.key.id == id && job in JobsOf(s, e.key))
  {
  }

  lemma RecordsStayGenuine(s: Sys, e: Action)
    requires RecordsGenuine(s) && WorkersGenuine(s)
    ensures RecordsGenuine(Do(s, e))
  {
    forall id | RecordedJob(Do(s, e), id).Some? ensures Genuine(Do(s, e), id, RecordedJob(Do(s, e), id).value) {
      var job := RecordedJob(Do(s, e), id).value;
      if RecordedJob(s, id) != Some(job) {
        RecordedFrom(s, e, id);
        if !e.NodeRecords? { assert PcGenuine(s, PcOf(s, e.w)); }
      }
      GenuineStays(s, e, id, job);
    }
  }

  // Where a job id in a worker's hands comes from.
  lemma WorkerStaysGenuine(s: Sys, e: Action, w: nat)
    requires RecordsGenuine(s) && PcGenuine(s, PcOf(s, w))
    ensures PcGenuine(Do(s, e), PcOf(Do(s, e), w))
  {
    var pc := PcOf(Do(s, e), w);
    if pc == PcOf(s, w) {
      if pc.Launched? && pc.printed.Some? { GenuineStays(s, e, pc.ticket.key.id, pc.printed.value); }
      if pc.Reporting? { GenuineStays(s, e, pc.key.id, pc.job); }
    } else if pc.Launched? {
      assert pc.printed.Some? ==> pc.printed.value in JobsOf(Do(s, e), pc.ticket.key);
    } else if pc.Reporting? {
      ReportedFrom(s, e, w);
      GenuineStays(s, e, pc.key.id, pc.job);
    }
  }

  lemma ReportedFrom(s: Sys, e: Action, w: nat)
    requires PcOf(Do(s, e), w).Reporting? && PcOf(Do(s, e), w) != PcOf(s, w)
    ensures var pc := PcOf(Do(s, e), w);
            RecordedJob(s, pc.key.id) == Some(pc.job)
            || (PcOf(s, w).Launched? && PcOf(s, w).ticket.key == pc.key && PcOf(s, w).printed == Some(pc.job))
  {
  }

  lemma RowsStayGenuine(s: Sys, e: Action)
    requires RecordsGenuine(s) && WorkersGenuine(s) && RowsGenuine(s) && Honest(s, e)
    ensures RowsGenuine(Do(s, e))
  {
    DatabaseOf(s, e);
    var next := Do(s, e).db;
    forall key | key in next.runs && next.runs[key].jobId.Some?
      ensures Genuine(Do(s, e), key.id, next.runs[key].jobId.value)
    {
      var job := next.runs[key].jobId;
      if !(key in s.db.runs && s.db.runs[key].jobId == job) { NamedByAReport(s, e, key); }
      GenuineStays(s, e, key.id, job.value);
    }
  }

  lemma NamedByAReport(s: Sys, e: Action, key: RunKey)
    requires RecordsGenuine(s) && WorkersGenuine(s) && Honest(s, e)
    ensures var was, job := Laws.JobNamed(s.db, key), Laws.JobNamed(Do(s, e).db, key);
            job.Some? && job != was ==> Genuine(s, key.id, job.value)
  {
    DatabaseOf(s, e);
    if DbEvent(s, e).Some? { Laws.OnlyReportsNameJobs(s.db, s.now, DbEvent(s, e).value, key); }
    if e.ReportSubmission? {
      assert PcGenuine(s, PcOf(s, e.w));
    } else if e.Reconcile? {
      assert RecordedJob(s, e.id).Some? ==> Genuine(s, e.id, RecordedJob(s, e.id).value);
    }
  }

  // Main result: after any history the job ids in the local records and in
  // the workers' hands are the launcher's own; and so are those on the rows,
  // as long as every completion names a job the launcher started.
  lemma {:induction false} NoJobIdIsInvented(s: Sys, es: seq<Action>)
    requires RecordsGenuine(s) && WorkersGenuine(s)
    ensures RecordsGenuine(Perform(s, es)) && WorkersGenuine(Perform(s, es))
    ensures RowsGenuine(s) && AllHonest(s, es) ==> RowsGenuine(Perform(s, es))
    decreases |es|
  {
    if es != [] {
      RecordsStayGenuine(s, es[0]);
      forall w ensures PcGenuine(Do(s, es[0]), PcOf(Do(s, es[0]), w)) { WorkerStaysGenuine(s, es[0], w); }
      if RowsGenuine(s) && Honest(s, es[0]) { RowsStayGenuine(s, es[0]); }
      NoJobIdIsInvented(Do(s, es[0]), es[1..]);
    }
  }
}
