/** What a run record's `reported` flag stands for
    (`scripts/lib/training_state.py:141-230`,
    `training/run_training_queue.py:441-513,670-712`): the repair pass tells the
    backend again exactly of the submissions it was never told of. */
module SubmissionRecords {
  import opened Common
  import opened TrainingDatabase
  import opened TrainingWorker
  import opened TrainingWorkerSafety
  import opened TrainingWorkerRun

  // ------------------------------------------------------------------ //
  // What sets the flag, and what takes it back
  // ------------------------------------------------------------------ //

  // The submission of this job was settled: the backend's acceptance was
  // heard, or to the repair pass its 404 or 409; or the run's completion was.
  predicate Tells(s: Sys, e: Action, id: string, job: Option<string>) {
    match e
    case ReportSubmission(w, train, validation, applied, acknowledged) =>
      applied && acknowledged && PcOf(s, w).Reporting? && PcOf(s, w).key.id == id && job == Some(PcOf(s, w).job)
      && Callbacks(s.db, s.now, PcOf(s, w).key, SubmittedReport(PcOf(s, w).job, train, validation)).Applied?
    case Reconcile(x, train, validation, applied, acknowledged) =>
      x == id && applied && acknowledged && id in s.records && job.Some? && s.records[id].job == job
      && !s.records[id].reported
      && var key := RunKey(s.records[id].course, id);
         var o := Callbacks(s.db, s.now, key, SubmittedReport(job.value, train, validation));
         o.Applied? || o.status == 404 || o.status == 409
    case NodeReported(x) => x == id && id in s.records && s.records[id].job == job
    case _ => false
  }

  ghost predicate Told(s: Sys, e: Action, id: string) { exists job :: Tells(s, e, id, job) }

  // A submission is about to be made, or was just made and not reported.
  predicate Submits(s: Sys, e: Action, id: string) {
    (e.RecordIntent? && PcOf(s, e.w).Cleared? && PcOf(s, e.w).ticket.key.id == id)
    || (e.RecordJob? && PcOf(s, e.w).Launched? && PcOf(s, e.w).printed.Some? && PcOf(s, e.w).ticket.key.id == id)
  }

  predicate Flagged(s: Sys, id: string) { id in s.records && s.records[id].reported }

  lemma TellsIsOfTheRecord(s: Sys, e: Action, id: string, job: Option<string>)
    requires Tells(s, e, id, job)
    ensures id in Do(s, e).records && Do(s, e).records[id].reported && Do(s, e).records[id].job == job
    ensures !Submits(s, e, id)
  {
  }

  lemma FlagStep(s: Sys, e: Action, id: string)
    ensures Flagged(Do(s, e), id) <==> Told(s, e, id) || (Flagged(s, id) && !Submits(s, e, id))
  {
    if job :| Tells(s, e, id, job) {
      TellsIsOfTheRecord(s, e, id, job);
    } else if Flagged(Do(s, e), id) && !Flagged(s, id) {
      SetFrom(s, e, id);
    }
  }

  lemma SetFrom(s: Sys, e: Action, id: string)
    requires Flagged(Do(s, e), id) && !Flagged(s, id)
    ensures Tells(s, e, id, Do(s, e).records[id].job)
  {
  }

  // ------------------------------------------------------------------ //
  // Over any history
  // ------------------------------------------------------------------ //

  ghost predicate ToldSinceSubmitted(s: Sys, es: seq<Action>, id: string)
    decreases |es|
  {
    es != []
    && var before, last := Perform(s, es[..|es| - 1]), es[|es| - 1];
       Told(before, last, id) || (ToldSinceSubmitted(s, es[..|es| - 1], id) && !Submits(before, last, id))
  }

  lemma PerformLast(s: Sys, es: seq<Action>)
    requires es != []
    ensures Perform(s, es) == Do(Perform(s, es[..|es| - 1]), es[|es| - 1])
  {
    var init, last := es[..|es| - 1], es[|es| - 1];
    assert es == init + [last];
    PerformAppend(s, init, [last]);
    PerformOne(Perform(s, init), last);
  }

  // Main result: after any history a record says it was reported exactly when
  // its submission was settled after it was last made.
  lemma {:induction false} ReportedIff(courses: set<string>, es: seq<Action>, id: string)
    ensures Flagged(Perform(Start(courses), es), id) <==> ToldSinceSubmitted(Start(courses), es, id)
    decreases |es|
  {
    if es != [] {
      var init := es[..|es| - 1];
      ReportedIff(courses, init, id);
      PerformLast(Start(courses), es);
      FlagStep(Perform(Start(courses), init), es[|es| - 1], id);
    }
  }

  // The record's job is the one that was settled, unless another job of the
  // run put its own id there since.
  ghost predicate Settling(s: Sys, es: seq<Action>, id: string, i: nat, told: Option<string>) {
    i < |es| && Tells(Perform(s, es[..i]), es[i], id, told)
  }

  ghost predicate RecordedItself(es: seq<Action>, id: string, i: nat, job: string) {
    exists k :: i < k < |es| && es[k].NodeRecords? && es[k].key.id == id && es[k].own == job
  }

  ghost predicate SettledInThePast(s: Sys, es: seq<Action>, id: string) {
    exists i: nat, told :: Settling(s, es, id, i, told)
                           && var job := RecordedJob(Perform(s, es), id);
                              told == job || (job.Some? && RecordedItself(es, id, i, job.value))
  }

  lemma {:induction false} ReportedWasSettled(courses: set<string>, es: seq<Action>, id: string)
    requires Flagged(Perform(Start(courses), es), id)
    ensures SettledInThePast(Start(courses), es, id)
    decreases |es|
  {
    var s := Start(courses);
    var init, last := es[..|es| - 1], es[|es| - 1];
    var before := Perform(s, init);
    PerformLast(s, es);
    FlagStep(before, last, id);
    if told :| Tells(before, last, id, told) {
      TellsIsOfTheRecord(before, last, id, told);
      assert Settling(s, es, id, |init|, told);
    } else {
      ReportedWasSettled(courses, init, id);
      var i: nat, told :| Settling(s, init, id, i, told)
        && var job := RecordedJob(before, id);
           told == job || (job.Some? && RecordedItself(init, id, i, job.value));
      assert init[..i] == es[..i];
      assert Settling(s, es, id, i, told);
      var job := RecordedJob(Perform(s, es), id);
      if RecordedJob(before, id) != job {
        JobOfAFlaggedRecord(before, last, id);
        assert es[|init|] == last;
        assert RecordedItself(es, id, i, job.value);
      } else if told != job {
        var k :| i < k < |init| && init[k].NodeRecords? && init[k].key.id == id && init[k].own == job.value;
        assert es[k] == init[k];
      }
    }
  }

  lemma JobOfAFlaggedRecord(s: Sys, e: Action, id: string)
    requires Flagged(s, id) && Flagged(Do(s, e), id) && !Told(s, e, id)
    requires RecordedJob(Do(s, e), id) != RecordedJob(s, id)
    ensures e.NodeRecords? && e.key.id == id && RecordedJob(Do(s, e), id) == Some(e.own)
  {
    assert !Tells(s, e, id, RecordedJob(Do(s, e), id));
    FlagStep(s, e, id);
  }

  // A second job that records itself is covered by the first one's report:
  // its own submission is never told.
  lemma SecondJobPassesForReported(s: Sys, key: RunKey, job: string)
    requires Flagged(s, key.id) && job in JobsOf(s, key)
    ensures var t := Do(s, NodeRecords(key, job));
            RecordedJob(t, key.id) == Some(job) && Flagged(t, key.id) && key.id !in Unreported(t) && t.db == s.db
  {
  }

  // ------------------------------------------------------------------ //
  // The repair
  // ------------------------------------------------------------------ //

  ghost predicate NeverTold(s: Sys, es: seq<Action>, id: string)
    decreases |es|
  {
    es == [] || (!Told(s, es[0], id) && NeverTold(Do(s, es[0]), es[1..], id))
  }

  // From the moment the job id is on disk until its submission is settled, it
  // is on the repair pass's list: through crashes, lost replies and new claims.
  lemma {:induction false} StaysOnTheList(s: Sys, es: seq<Action>, id: string)
    requires id in Unreported(s) && NeverTold(s, es, id)
    ensures id in Unreported(Perform(s, es))
    decreases |es|
  {
    if es != [] {
      FlagStep(s, es[0], id);
      RecordsKeepJobs(s, es[0], id);
      StaysOnTheList(Do(s, es[0]), es[1..], id);
    }
  }

  // So a submission whose report was lost is on the list.
  lemma LostReportIsUnreported(s: Sys, w: nat, train: int, validation: int, es: seq<Action>)
    requires PcOf(s, w).Launched? && PcOf(s, w).printed.Some?
    requires var t := Do(Do(s, RecordJob(w)), ReportSubmission(w, train, validation, false, false));
             NeverTold(t, es, PcOf(s, w).ticket.key.id)
    ensures var t := Do(Do(s, RecordJob(w)), ReportSubmission(w, train, validation, false, false));
            PcOf(s, w).ticket.key.id in Unreported(Perform(t, es))
  {
    var id := PcOf(s, w).ticket.key.id;
    var a := Do(s, RecordJob(w));
    assert a.records[id].job == PcOf(s, w).printed && !a.records[id].reported;
    var t := Do(a, ReportSubmission(w, train, validation, false, false));
    assert t.records == a.records;
    StaysOnTheList(t, es, id);
  }

  // And one heard answer to its repair settles it: the backend is told of the
  // recorded job, and it leaves the list exactly for an acceptance, a 404 or
  // a 409.
  lemma RepairTellsTheBackend(s: Sys, id: string, train: int, validation: int)
    requires id in Unreported(s)
    ensures var key := RunKey(s.records[id].course, id);
            var report := SubmittedReport(s.records[id].job.value, train, validation);
            var o := Callbacks(s.db, s.now, key, report);
            var t := Do(s, Reconcile(id, train, validation, true, true));
            t.db == (if o.Applied? then o.db else s.db)
            && (id !in Unreported(t) <==> o.Applied? || o.status == 404 || o.status == 409)
            && (o.Applied? ==> key in t.db.runs && t.db.runs[key].jobId == s.records[id].job
                               && t.db.runs[key].state == RunState.Submitted)
  {
  }
}
