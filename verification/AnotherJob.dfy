/** Exactly when a run can be given another job, whatever the workers, the
    clock and everybody else do from then on: `training/run_training_queue.py`
    with the claim of `backend/app/db_training_runs.py`. */
module AnotherJob {
  import opened Common
  import opened TrainingDatabase
  import opened TrainingWorker
  import opened TrainingWorkerSafety
  import Laws = TrainingDatabaseLaws

  // A worker can still be handed the run: its row waits or is held without a
  // job, or it can yet be queued.
  predicate OpenRow(db: Db, key: RunKey) {
    if key in db.runs then db.runs[key].jobId.None? && !Terminal(db.runs[key].state) else key.course in db.courses
  }

  // Somebody is between the duplicate check and the launcher; or the local
  // record has no job, and somebody holds the run or can still be handed it.
  ghost predicate MayStart(s: Sys, key: RunKey) {
    (exists w :: PastCheck(PcOf(s, w), key))
    || (RecordedJob(s, key.id).None? && (OpenRow(s.db, key) || exists w :: BeforeLaunch(PcOf(s, w), key)))
  }

  // ------------------------------------------------------------------ //
  // Otherwise never
  // ------------------------------------------------------------------ //

  lemma UnknownCourseStaysOut(db: Db, now: int, e: TrainingDatabase.Event, key: RunKey)
    requires key !in db.runs && key.course !in db.courses
    ensures key !in Step(db, now, e).runs && key.course !in Step(db, now, e).courses
  {
    if e.Callback? { Laws.CallbackWritesOneRow(db, now, e.key, e.callback); }
    Laws.StepKeepsCourses(db, now, e);
  }

  lemma RowStaysClosed(s: Sys, e: Action, key: RunKey)
    requires Laws.Sound(s.db.runs) && !OpenRow(s.db, key)
    ensures !OpenRow(Do(s, e).db, key)
  {
    if key in s.db.runs {
      RowsKeepJobs(s, e, key);
    } else {
      DatabaseOf(s, e);
      if DbEvent(s, e).Some? { UnknownCourseStaysOut(s.db, s.now, DbEvent(s, e).value, key); }
    }
  }

  lemma NobodyPassesTheCheck(s: Sys, e: Action, key: RunKey)
    requires RecordedJob(s, key.id).Some? && forall w :: !PastCheck(PcOf(s, w), key)
    ensures forall w :: !PastCheck(PcOf(Do(s, e), w), key)
  {
    forall w ensures !PastCheck(PcOf(Do(s, e), w), key) {
      if PastCheck(PcOf(Do(s, e), w), key) { OnlyTheCheckClears(s, e, w, key); }
    }
  }

  lemma NobodyIsHandedIt(s: Sys, e: Action, key: RunKey)
    requires !OpenRow(s.db, key) && forall w :: !BeforeLaunch(PcOf(s, w), key)
    ensures forall w :: !BeforeLaunch(PcOf(Do(s, e), w), key)
  {
    forall w ensures !BeforeLaunch(PcOf(Do(s, e), w), key) {
      if BeforeLaunch(PcOf(Do(s, e), w), key) { OnlyAClaimHolds(s, e, w, key); }
    }
  }

  lemma NeverStep(s: Sys, e: Action, key: RunKey)
    requires Laws.Sound(s.db.runs) && !MayStart(s, key)
    ensures !MayStart(Do(s, e), key) && JobsOf(Do(s, e), key) == JobsOf(s, key)
  {
    forall w ensures !Calls(s, e, w, key) { assert !PastCheck(PcOf(s, w), key); }
    OnlyCallsStartJobs(s, e, key);
    if RecordedJob(s, key.id).Some? {
      RecordsKeepJobs(s, e, key.id);
      NobodyPassesTheCheck(s, e, key);
    } else {
      RowStaysClosed(s, e, key);
      NobodyIsHandedIt(s, e, key);
      forall w ensures !PastCheck(PcOf(Do(s, e), w), key) { assert !BeforeLaunch(PcOf(Do(s, e), w), key); }
    }
  }

  lemma {:induction false} NoMoreJobs(s: Sys, es: seq<Action>, key: RunKey)
    requires Laws.Sound(s.db.runs) && !MayStart(s, key)
    ensures JobsOf(Perform(s, es), key) == JobsOf(s, key)
    decreases |es|
  {
    if es != [] {
      NeverStep(s, es[0], key);
      SystemKeepsQueueSound(s, es[0]);
      NoMoreJobs(Do(s, es[0]), es[1..], key);
    }
  }

  // Once every worker is past knowing of a job, the run is given none any
  // more.
  lemma NeverLaunchedOnceKnown(s: Sys, es: seq<Action>, key: RunKey)
    requires Laws.Sound(s.db.runs) && forall w :: KnownTo(s, w, key)
    ensures JobsOf(Perform(s, es), key) == JobsOf(s, key)
  {
    forall w ensures !PastCheck(PcOf(s, w), key) { assert KnownTo(s, w, key); }
    if RecordedJob(s, key.id).None? {
      assert KnownTo(s, 0, key);
      forall w ensures !BeforeLaunch(PcOf(s, w), key) { assert KnownTo(s, w, key); }
    }
    NoMoreJobs(s, es, key);
  }

  // ------------------------------------------------------------------ //
  // Otherwise always possible
  // ------------------------------------------------------------------ //

  lemma More(s: Sys, es: seq<Action>, e: Action) returns (longer: seq<Action>)
    ensures longer == es + [e] && Perform(s, longer) == Do(Perform(s, es), e)
  {
    longer := es + [e];
    PerformAppend(s, es, [e]);
    PerformOne(Perform(s, es), e);
  }

  // A worker past its check goes on to the launcher.
  lemma CallGoesThrough(s: Sys, before: seq<Action>, w: nat, key: RunKey, job: string) returns (es: seq<Action>)
    requires PastCheck(PcOf(Perform(s, before), w), key)
    ensures JobsOf(Perform(s, es), key) == JobsOf(Perform(s, before), key) + [job]
  {
    es := before;
    if PcOf(Perform(s, before), w).Cleared? { es := More(s, es, RecordIntent(w)); }
    LaunchingAdds(Perform(s, es), w, key, job);
    es := More(s, es, Launch(w, Some(job), true));
  }

  // A worker that holds the run finds no job recorded and goes on.
  lemma HolderGoesOn(s: Sys, w: nat, key: RunKey, job: string) returns (es: seq<Action>)
    requires BeforeLaunch(PcOf(s, w), key) && RecordedJob(s, key.id).None?
    ensures JobsOf(Perform(s, es), key) == JobsOf(s, key) + [job]
  {
    es := [];
    if PcOf(s, w).Holding? { es := More(s, es, CheckDuplicate(w)); }
    es := CallGoesThrough(s, es, w, key, job);
  }

  lemma {:induction false} AboveAll(ws: set<nat>) returns (top: nat)
    ensures forall w :: w in ws ==> w < top
    decreases ws
  {
    if ws == {} {
      top := 0;
    } else {
      var w :| w in ws;
      var rest := AboveAll(ws - {w});
      top := if rest <= w then w + 1 else rest;
      assert ws == ws - {w} + {w};
    }
  }

  // A row without a job is claimable once its lease has run out, and there is
  // always another worker.
  lemma AnybodyTakesIt(s: Sys, before: seq<Action>, key: RunKey, job: string) returns (es: seq<Action>)
    requires var t := Perform(s, before);
             key in t.db.runs && OpenRow(t.db, key) && Laws.Jobbed(t.db.runs[key]) && RecordedJob(t, key.id).None?
    ensures JobsOf(Perform(s, es), key) == JobsOf(Perform(s, before), key) + [job]
  {
    var t := Perform(s, before);
    var until := t.db.runs[key].claimExpiresAt;
    es := More(s, before, Tick(if until.Some? && until.value > t.now then until.value - t.now else 0));
    var later := Perform(s, es);
    var w := AboveAll(later.workers.Keys);
    var z := Submitting(later, w, key, job, true);
    PerformAppend(s, es, Submit(later, w, key, job, true));
    es := es + Submit(later, w, key, job, true);
  }

  // ------------------------------------------------------------------ //
  // A run not queued yet
  // ------------------------------------------------------------------ //

  // The course's unfinished run, if any, is failed, if need be after its
  // request was pointed at it.
  lemma MakeRoom(s: Sys, key: RunKey) returns (es: seq<Action>)
    requires Laws.Sound(s.db.runs) && key !in s.db.runs
    ensures var t := Perform(s, es);
            !Active(t.db.runs, key.course) && key !in t.db.runs && t.db.courses == s.db.courses
            && t.records == s.records && t.jobs == s.jobs
  {
    es := [];
    if k :| k in s.db.runs && k.course == key.course && !Terminal(s.db.runs[k].state) {
      if key.course in s.db.requests {
        es := More(s, es, Backend(PatchRequest(key.course, s.db.requests[key.course].(currentRunId := Some(k.id)))));
      }
      Ending(Perform(s, es), k);
      es := More(s, es, Backend(Callback(k, TrainingFailed(""))));
    }
  }

  lemma Ending(s: Sys, k: RunKey)
    requires Laws.Sound(s.db.runs) && k in s.db.runs && !Terminal(s.db.runs[k].state) && OwnsRequest(s.db, k)
    ensures var t := Do(s, Backend(Callback(k, TrainingFailed(""))));
            !Active(t.db.runs, k.course) && t.db.runs.Keys == s.db.runs.Keys && t.db.courses == s.db.courses
            && t.records == s.records && t.jobs == s.jobs
  {
    Laws.CallbackWritesOneRow(s.db, s.now, k, TrainingFailed(""));
    NoneIsLeft(s.db.runs, k, FailedRun(s.db.runs[k], s.now, ""));
  }

  lemma NoneIsLeft(runs: RunTable, k: RunKey, ended: Run)
    requires Laws.OneActivePerCourse(runs) && k in runs && !Terminal(runs[k].state) && Terminal(ended.state)
    ensures !Active(runs[k := ended], k.course)
  {
  }

  lemma QueuedFirst(s: Sys, key: RunKey) returns (es: seq<Action>)
    requires Laws.Sound(s.db.runs) && key !in s.db.runs && key.course in s.db.courses
    ensures var t := Perform(s, es);
            key in t.db.runs && OpenRow(t.db, key) && Laws.Jobbed(t.db.runs[key])
            && t.records == s.records && t.jobs == s.jobs
  {
    es := MakeRoom(s, key);
    es := More(s, es, Backend(EnqueueRun(key, Full, "exports", 1, 1, 1, None)));
  }

  lemma StartsAnother(s: Sys, key: RunKey, job: string) returns (es: seq<Action>)
    requires Laws.Sound(s.db.runs) && (key in s.db.runs ==> Laws.Jobbed(s.db.runs[key])) && MayStart(s, key)
    ensures JobsOf(Perform(s, es), key) == JobsOf(s, key) + [job]
  {
    if w :| PastCheck(PcOf(s, w), key) {
      es := CallGoesThrough(s, [], w, key, job);
    } else if w :| BeforeLaunch(PcOf(s, w), key) {
      es := HolderGoesOn(s, w, key, job);
    } else {
      es := [];
      if key !in s.db.runs { es := QueuedFirst(s, key); }
      es := AnybodyTakesIt(s, es, key, job);
    }
  }

  // ------------------------------------------------------------------ //
  // Exactly
  // ------------------------------------------------------------------ //

  // Main result: something that may happen from here on gives the run another
  // job, exactly when `MayStart` says so of the row, the local record and the
  // workers as they are.
  lemma AnotherJobIff(s: Sys, key: RunKey)
    requires Laws.Sound(s.db.runs) && (key in s.db.runs ==> Laws.Jobbed(s.db.runs[key]))
    ensures (exists es :: JobsOf(Perform(s, es), key) != JobsOf(s, key)) <==> MayStart(s, key)
  {
    if MayStart(s, key) {
      var es := StartsAnother(s, key, "1");
      assert JobsOf(Perform(s, es), key) != JobsOf(s, key);
    } else {
      forall es ensures JobsOf(Perform(s, es), key) == JobsOf(s, key) { NoMoreJobs(s, es, key); }
    }
  }

  lemma {:induction false} JobbedAlways(s: Sys, es: seq<Action>, key: RunKey)
    requires key in s.db.runs ==> Laws.Jobbed(s.db.runs[key])
    ensures var t := Perform(s, es); key in t.db.runs ==> Laws.Jobbed(t.db.runs[key])
    decreases |es|
  {
    if es != [] {
      DatabaseOf(s, es[0]);
      if DbEvent(s, es[0]).Some? { Laws.StepKeepsJobbed(s.db, s.now, DbEvent(s, es[0]).value, key); }
      JobbedAlways(Do(s, es[0]), es[1..], key);
    }
  }

  // So after any history from an empty system the run is safe from a further
  // job, whatever comes, exactly when nobody is past the duplicate check and
  // the job is in the local record, or nobody holds the run and its row is
  // closed to claims.
  lemma FurtherJobIff(courses: set<string>, es: seq<Action>, key: RunKey)
    ensures var s := Perform(Start(courses), es);
            (exists more :: |JobsOf(Perform(s, more), key)| > |JobsOf(s, key)|) <==> MayStart(s, key)
  {
    var s := Perform(Start(courses), es);
    TakingKeepsSound(Start(courses), es);
    JobbedAlways(Start(courses), es, key);
    if MayStart(s, key) {
      var more := StartsAnother(s, key, "1");
      assert |JobsOf(Perform(s, more), key)| > |JobsOf(s, key)|;
    } else {
      forall more ensures JobsOf(Perform(s, more), key) == JobsOf(s, key) { NoMoreJobs(s, more, key); }
    }
  }
}
