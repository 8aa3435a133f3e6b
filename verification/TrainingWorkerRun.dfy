/** One invocation of the queue worker, `run_once`, and its repair pass,
    `reconcile_unreported_submissions` (`training/run_training_queue.py`),
    while everybody else keeps acting between any two of its steps.

    Foreign calls (the backend, the dataset transfer, the launcher) answer
    arbitrarily; a reply may be lost after its request was applied. */
module TrainingWorkerRun {
  import opened Common
  import Pending = PendingReports
  import opened TrainingDatabase
  import opened TrainingWorker
  import Safety = TrainingWorkerSafety

  // How an invocation ended.
  datatype Ended =
    | NothingQueued
    | NotClaimed(conflict: bool)                    // another runner was first, or the reply was lost
    | AlreadySubmitted(key: RunKey, job: string, told: bool)
    | HandedBack(key: RunKey)
    | Submitted(key: RunKey, job: string, told: bool)
    | NotSubmitted(key: RunKey)

  // A submission report: what was sent, what became of it, and whether the
  // worker heard it accepted.
  datatype Telling = Telling(train: int, validation: int, applied: bool, acknowledged: bool, accepted: bool)

  ghost predicate Retold(trace: seq<Action>, from: nat, id: string) {
    exists i :: from <= i < |trace| && trace[i].Reconcile? && trace[i].id == id
  }

  lemma RetoldGrows(before: seq<Action>, told: seq<Action>, after: seq<Action>, from: nat, x: string, id: string)
    requires before <= told <= after && from < |told| && told[|told| - 1].Reconcile? && told[|told| - 1].id == id
    requires x == id || Retold(before, from, x)
    ensures Retold(after, from, x)
  {
    if x == id {
      assert after[|told| - 1].Reconcile?;
    } else {
      var i :| from <= i < |before| && before[i].Reconcile? && before[i].id == x;
      assert after[i] == before[i];
    }
  }

  predicate By(e: Action, w: nat) {
    match e
    case ClaimRun(v, _, _, _, _, _, _) => v == w
    case CheckDuplicate(v) => v == w
    case GiveBack(v, _, _, _) => v == w
    case RecordIntent(v) => v == w
    case Launch(v, _, _) => v == w
    case RecordJob(v) => v == w
    case ReportSubmission(v, _, _, _, _) => v == w
    case ReportFailure(v, _, _) => v == w
    case Crash(v) => v == w
    case _ => false
  }

  // One worker's own steps among everybody's.
  ghost function Own(es: seq<Action>, w: nat): seq<Action> {
    if es == [] then []
    else Own(es[..|es| - 1], w) + (if By(es[|es| - 1], w) then [es[|es| - 1]] else [])
  }

  // The order of an invocation's steps, and what each ending says happened.
  predicate Script(end: Ended, mine: seq<Action>) {
    match end
    case NothingQueued => mine == []
    case NotClaimed(conflict) =>
      if conflict then mine == [] else |mine| == 1 && mine[0].ClaimRun? && !mine[0].delivered
    case AlreadySubmitted(key, _, told) =>
      |mine| == 3 && Took(mine, key) && mine[2].ReportSubmission? && (told ==> mine[2].applied && mine[2].acknowledged)
    case HandedBack(key) =>
      |mine| == 3 && Took(mine, key) && mine[2].GiveBack?
    case _ => Took(mine, end.key) && SubmissionScript(end, mine[2..])
  }

  predicate SubmissionScript(end: Ended, mine: seq<Action>)
    requires end.Submitted? || end.NotSubmitted?
  {
    |mine| >= 3 && mine[0].RecordIntent? && mine[1].Launch?
    && match end
       case Submitted(_, job, told) =>
         mine[1].job == Some(job) && mine[1].printed && |mine| == 4 && mine[2].RecordJob?
         && mine[3].ReportSubmission? && (told ==> mine[3].applied && mine[3].acknowledged)
       case NotSubmitted(_) =>
         (mine[1].job.None? || !mine[1].printed) && |mine| == 3 && mine[2].ReportFailure?
  }

  predicate Took(mine: seq<Action>, key: RunKey) {
    |mine| >= 2 && mine[0].ClaimRun? && mine[0].key == key && mine[0].delivered && mine[1].CheckDuplicate?
  }

  function ExitStatus(end: Ended): int {
    match end
    case NothingQueued => 0
    case NotClaimed(conflict) => if conflict then 0 else 1
    case AlreadySubmitted(_, _, told) => if told then 0 else 1
    case HandedBack(_) => 1
    case Submitted(_, _, told) => if told then 0 else 1
    case NotSubmitted(_) => 1
  }

  // Zero exactly when there was nothing to claim, another runner was first, or
  // the backend is heard to know the run's job.
  lemma ExitIff(end: Ended)
    ensures ExitStatus(end) in {0, 1}
    ensures ExitStatus(end) == 0 <==>
              end.NothingQueued? || end == NotClaimed(true)
              || ((end.Submitted? || end.AlreadySubmitted?) && end.told)
  {
  }

  // Before a job is started its run is claimed, the claim has arrived, the
  // local record has been asked for a job and the intent is on it; whatever the
  // launcher prints is recorded before it is reported. Every other invocation
  // starts nothing and ends with its one report or hand-back.
  lemma OrderOfSteps(end: Ended, mine: seq<Action>)
    requires Script(end, mine)
    ensures end.NothingQueued? || end == NotClaimed(true) <==> mine == []
    ensures end == NotClaimed(false) ==> |mine| == 1 && mine[0].ClaimRun? && mine[0].delivered == false
    ensures !end.NothingQueued? && !end.NotClaimed? ==>
              |mine| >= 3 && mine[0].ClaimRun? && mine[0].delivered == true && mine[0].key == end.key
              && mine[1].CheckDuplicate?
    ensures end.AlreadySubmitted? ==> |mine| == 3 && mine[2].ReportSubmission?
    ensures end.HandedBack? ==> |mine| == 3 && mine[2].GiveBack?
    ensures end.Submitted? || end.NotSubmitted? ==> |mine| >= 5 && mine[2].RecordIntent? && mine[3].Launch?
    ensures end.Submitted? ==>
              |mine| == 6 && mine[3].job == Some(end.job) && mine[3].printed == true
              && mine[4].RecordJob? && mine[5].ReportSubmission?
    ensures end.NotSubmitted? ==> |mine| == 5 && !(mine[3].printed && mine[3].job.Some?) && mine[4].ReportFailure?
    ensures (end.Submitted? || end.AlreadySubmitted?) && end.told ==>
              mine[|mine| - 1].applied && mine[|mine| - 1].acknowledged
  {
    if end.Submitted? || end.NotSubmitted? {
      assert forall i :: 2 <= i < |mine| ==> mine[i] == mine[2..][i - 2];
    }
  }

  // Where a worker's own step takes it, given the job its record shows.
  function PcAfter(pc: Pc, e: Action, existing: Option<string>): Pc {
    match e
    case CheckDuplicate(_) =>
      if !pc.Holding? then pc
      else if existing.Some? then Reporting(pc.ticket.key, existing.value)
      else Cleared(pc.ticket)
    case GiveBack(_, _, _, _) => if pc.Cleared? then Idle else pc
    case RecordIntent(_) => if pc.Cleared? then Armed(pc.ticket) else pc
    case Launch(_, job, printed) => if pc.Armed? then Launched(pc.ticket, if printed then job else None) else pc
    case RecordJob(_) => if pc.Launched? && pc.printed.Some? then Reporting(pc.ticket.key, pc.printed.value) else pc
    case ReportSubmission(_, _, _, _, _) => if pc.Reporting? then Idle else pc
    case ReportFailure(_, _, _) => if pc.Launched? && pc.printed.None? then Idle else pc
    case _ => pc
  }

  lemma PcStays(s: Sys, e: Action, w: nat)
    requires !By(e, w)
    ensures PcOf(Do(s, e), w) == PcOf(s, w)
  {
  }

  lemma PcMoves(s: Sys, e: Action, w: nat)
    requires By(e, w) && !e.ClaimRun? && !e.Crash? && PcOf(s, w) != Idle
    ensures var existing := if PcOf(s, w).Holding? then RecordedJob(s, PcOf(s, w).ticket.key.id) else None;
            PcOf(Do(s, e), w) == PcAfter(PcOf(s, w), e, existing)
  {
  }

  lemma ClaimMoves(s: Sys, e: Action)
    requires e.ClaimRun? && PcOf(s, e.w) == Idle && e.owner != "" && e.lease > 0
        && IsNext(s.db.runs, s.now, e.courses, e.locked, e.key)
    ensures if e.delivered then PcOf(Do(s, e), e.w).Holding? && PcOf(Do(s, e), e.w).ticket.key == e.key
            else PcOf(Do(s, e), e.w) == Idle
  {
  }

  lemma AcceptanceIsRecorded(s: Sys, w: nat, key: RunKey, job: string, train: int, validation: int)
    requires PcOf(s, w) == Reporting(key, job) && Accepted(s, key, SubmittedReport(job, train, validation))
    ensures key.id in Do(s, ReportSubmission(w, train, validation, true, true)).records
    ensures Do(s, ReportSubmission(w, train, validation, true, true)).records[key.id].reported
  {
  }

  lemma RecordingRecords(s: Sys, w: nat)
    requires PcOf(s, w).Launched? && PcOf(s, w).printed.Some?
    ensures RecordedJob(Do(s, RecordJob(w)), PcOf(s, w).ticket.key.id).Some?
  {
  }

  function Unreported(s: Sys): set<string> {
    set id | id in s.records && s.records[id].job.Some? && !s.records[id].reported
  }

  class Cluster {
    var s: Sys
    ghost var trace: seq<Action>
    const courses: set<string>

    // The state is always what some history of the system leads to.
    ghost predicate Valid() reads this { s == Perform(Start(courses), trace) }

    // The backend's acceptance is on disk.
    predicate Reported(id: string) reads this { id in s.records && s.records[id].reported }

    constructor (courses: set<string>)
      ensures Valid() && s == Start(courses) && trace == []
    {
      this.courses := courses;
      s := Start(courses);
      trace := [];
    }

    method Act(e: Action)
      requires Valid()
      modifies this
      ensures Valid() && s == Do(old(s), e) && trace == old(trace) + [e]
      ensures forall id :: RecordedJob(old(s), id).Some? ==> RecordedJob(s, id).Some?
    {
      PerformAppend(Start(courses), trace, [e]);
      Safety.PerformOne(s, e);
      s := Do(s, e);
      trace := trace + [e];
      forall id | RecordedJob(old(s), id).Some? ensures RecordedJob(s, id).Some? {
        Safety.RecordsKeepJobs(old(s), e, id);
      }
    }

    // A step that is not this worker's.
    method Elsewhere(w: nat, e: Action)
      requires Valid() && !By(e, w)
      modifies this
      ensures Valid() && PcOf(s, w) == old(PcOf(s, w)) && Own(trace, w) == old(Own(trace, w)) && old(trace) <= trace
      ensures forall id :: RecordedJob(old(s), id).Some? ==> RecordedJob(s, id).Some?
      ensures trace == old(trace) + [e]
    {
      PcStays(s, e, w);
      Act(e);
    }

    // Whatever the rest of the system does in between.
    method Others(w: nat)
      requires Valid()
      modifies this
      ensures Valid() && PcOf(s, w) == old(PcOf(s, w)) && Own(trace, w) == old(Own(trace, w)) && old(trace) <= trace
      ensures forall id :: RecordedJob(old(s), id).Some? ==> RecordedJob(s, id).Some?
    {
      var steps :| 0 <= steps;
      for i := 0 to steps
        invariant Valid() && PcOf(s, w) == old(PcOf(s, w)) && Own(trace, w) == old(Own(trace, w)) && old(trace) <= trace
        invariant forall id :: RecordedJob(old(s), id).Some? ==> RecordedJob(s, id).Some?
      {
        var e: Action := *;
        if !By(e, w) {
          Elsewhere(w, e);
        }
      }
    }

    // Every submission the backend never acknowledged is reported again, one
    // request each; nothing is ever submitted here.
    method ReconcileUnreportedSubmissions(w: nat)
      requires Valid()
      modifies this
      ensures Valid() && PcOf(s, w) == old(PcOf(s, w)) && Own(trace, w) == old(Own(trace, w)) && old(trace) <= trace
      ensures forall id :: id in old(Unreported(s)) ==> Retold(trace, |old(trace)|, id)
    {
      var outstanding := Unreported(s);
      var left := outstanding;
      while left != {}
        invariant Valid() && PcOf(s, w) == old(PcOf(s, w)) && Own(trace, w) == old(Own(trace, w)) && old(trace) <= trace
        invariant left <= outstanding
        invariant forall id :: id in outstanding - left ==> Retold(trace, |old(trace)|, id)
        decreases left
      {
        var id :| id in left;
        var train: int, validation: int, applied: bool, acknowledged: bool := *, *, *, *;
        ghost var before := trace;
        Elsewhere(w, Reconcile(id, train, validation, applied, acknowledged));
        ghost var told := trace;
        assert trace[|trace| - 1] == Reconcile(id, train, validation, applied, acknowledged);
        left := left - {id};
        Others(w);
        forall x | x in outstanding - left ensures Retold(trace, |old(trace)|, x) {
          RetoldGrows(before, told, trace, |old(trace)|, x, id);
        }
      }
    }

    // One of the invocation's own steps.
    method Proceed(w: nat, e: Action)
      requires Valid() && By(e, w) && !e.Crash?
      requires if e.ClaimRun?
               then PcOf(s, w) == Idle && e.owner != "" && e.lease > 0
                    && IsNext(s.db.runs, s.now, e.courses, e.locked, e.key)
               else PcOf(s, w) != Idle
      modifies this
      ensures Valid() && Own(trace, w) == old(Own(trace, w)) + [e]
      ensures !e.ClaimRun? ==>
                var pc := old(PcOf(s, w));
                var existing := if pc.Holding? then RecordedJob(old(s), pc.ticket.key.id) else None;
                PcOf(s, w) == PcAfter(pc, e, existing)
      ensures e.ClaimRun? ==>
                if e.delivered then PcOf(s, w).Holding? && PcOf(s, w).ticket.key == e.key else PcOf(s, w) == Idle
      ensures forall id :: RecordedJob(old(s), id).Some? ==> RecordedJob(s, id).Some?
      ensures e.RecordJob? && old(PcOf(s, w)).Launched? && old(PcOf(s, w)).printed.Some? ==>
                RecordedJob(s, old(PcOf(s, w)).ticket.key.id).Some?
    {
      if e.ClaimRun? { ClaimMoves(s, e); } else { PcMoves(s, e, w); }
      if e.RecordJob? && PcOf(s, w).Launched? && PcOf(s, w).printed.Some? { RecordingRecords(s, w); }
      Act(e);
    }

    // Find a run, then ask the backend for one of its course's; the backend
    // hands over whichever it chooses.
    method ClaimNext(w: nat, owner: string, lease: int, courseIds: Option<set<string>>)
      returns (end: Option<Ended>, key: RunKey, ghost mine: seq<Action>)
      requires Valid() && PcOf(s, w) == Idle && owner != "" && lease > 0
      modifies this
      ensures Valid() && Own(trace, w) == old(Own(trace, w)) + mine
      ensures end.Some? ==>
                PcOf(s, w) == Idle && (end.value.NothingQueued? || end.value.NotClaimed?) && Script(end.value, mine)
      ensures end.None? ==> PcOf(s, w).Holding? && PcOf(s, w).ticket.key == key
      ensures end.None? ==> |mine| == 1 && mine[0].ClaimRun? && mine[0].key == key && mine[0].delivered
    {
      mine := [];
      key := RunKey("", "");
      var candidate := ChooseNext(s.db.runs, s.now, courseIds, {});
      if candidate.None? { return Some(NothingQueued), key, []; }
      Others(w);
      var wanted := Some({candidate.value.course});
      var locked: set<RunKey>, delivered: bool := *, *;
      var next := ChooseNext(s.db.runs, s.now, wanted, locked);
      if next.None? { return Some(NotClaimed(true)), key, []; }
      key := next.value;
      var claim := ClaimRun(w, key, owner, lease, wanted, locked, delivered);
      Proceed(w, claim);
      mine := [claim];
      end := if delivered then None else Some(NotClaimed(false));
    }

    // One pass of the worker: deliver what earlier jobs could not, reconcile,
    // then take one run. The exit status is zero only if nothing was claimed
    // or the backend has acknowledged a job for the run.
    method RunOnce(w: nat, owner: string, lease: int, courseIds: Option<set<string>>, reports: Pending.PendingStore,
        listing: seq<Pending.Key>, backend: Pending.Backend)
      returns (end: Ended, exit: int, ghost mine: seq<Action>)
      requires Valid() && PcOf(s, w) == Idle && owner != "" && lease > 0
      requires reports.Valid() && Pending.Listing(listing, reports.entries)
      modifies this, reports
      ensures Valid() && PcOf(s, w) == Idle && reports.Valid()
      ensures reports.entries == Pending.Kept(old(reports.entries), backend)
      ensures Own(trace, w) == old(Own(trace, w)) + mine && Script(end, mine)
      ensures Known(end) && exit == ExitStatus(end)
      ensures exit == 0 ==> mine == [] || (Took(mine, end.key) && Reported(end.key.id))
    {
      var summary := reports.FlushPending(listing, true, backend);
      Others(w);
      ReconcileUnreportedSubmissions(w);
      end, exit, mine := TakeOne(w, owner, lease, courseIds);
    }

    // A job that was submitted is on record, and acknowledged if told.
    ghost predicate Known(end: Ended) reads this {
      end.Submitted? || end.AlreadySubmitted? ==>
        RecordedJob(s, end.key.id).Some? && (end.told ==> Reported(end.key.id))
    }

    // Claim a run, look for a job it may already have, fetch and check its
    // data, then submit it.
    method TakeOne(w: nat, owner: string, lease: int, courseIds: Option<set<string>>)
      returns (end: Ended, exit: int, ghost mine: seq<Action>)
      requires Valid() && PcOf(s, w) == Idle && owner != "" && lease > 0
      modifies this
      ensures Valid() && PcOf(s, w) == Idle
      ensures Own(trace, w) == old(Own(trace, w)) + mine && Script(end, mine)
      ensures Known(end) && exit == ExitStatus(end)
    {
      ghost var before := Own(trace, w);
      var ended, key, claim := ClaimNext(w, owner, lease, courseIds);
      if ended.Some? {
        var lost := ended.value.NotClaimed? && !ended.value.conflict;
        return ended.value, if lost then 1 else 0, claim;
      }
      Others(w);
      ghost var rest;
      end, rest := FinishClaimed(w, key);
      exit := if (end.Submitted? || end.AlreadySubmitted?) && end.told then 0 else 1;
      mine := claim + rest;
      assert before + claim + rest == before + mine;
      assert mine[2..] == rest[1..];
    }

    // What becomes of a claimed run.
    method FinishClaimed(w: nat, key: RunKey) returns (end: Ended, ghost rest: seq<Action>)
      requires Valid() && PcOf(s, w).Holding? && PcOf(s, w).ticket.key == key
      modifies this
      ensures Valid() && PcOf(s, w) == Idle && Own(trace, w) == old(Own(trace, w)) + rest
      ensures end.AlreadySubmitted? || end.HandedBack? || end.Submitted? || end.NotSubmitted?
      ensures end.key == key && |rest| >= 2 && rest[0].CheckDuplicate?
      ensures end.AlreadySubmitted? ==>
                |rest| == 2 && rest[1].ReportSubmission? && (end.told ==> rest[1].applied && rest[1].acknowledged)
      ensures end.HandedBack? ==> |rest| == 2 && rest[1].GiveBack?
      ensures end.Submitted? || end.NotSubmitted? ==> SubmissionScript(end, rest[1..])
      ensures end.Submitted? || end.AlreadySubmitted? ==>
                RecordedJob(s, key.id).Some? && (end.told ==> Reported(key.id))
    {
      ghost var before := Own(trace, w);
      var existing := CheckForJob(w, key);
      ghost var check := [CheckDuplicate(w)];
      ghost var last;
      if existing.Some? {
        var told := ReportJob(w, key, existing.value);
        last := [ReportSubmission(w, told.train, told.validation, told.applied, told.acknowledged)];
        end := AlreadySubmitted(key, existing.value, told.accepted);
      } else if * {
        // The data could not be fetched (given back, or refused for good), or
        // does not suit the run (given back).
        var error: string, permanent: bool, applied: bool := *, *, *;
        Proceed(w, GiveBack(w, error, permanent, applied));
        last := [GiveBack(w, error, permanent, applied)];
        end := HandedBack(key);
      } else {
        end, last := SubmitCleared(w, key);
      }
      rest := check + last;
      assert before + check + last == before + rest;
      assert rest[1..] == last;
    }

    // Whether the local record already has a job for the claimed run.
    method CheckForJob(w: nat, key: RunKey) returns (existing: Option<string>)
      requires Valid() && PcOf(s, w).Holding? && PcOf(s, w).ticket.key == key
      modifies this
      ensures Valid() && Own(trace, w) == old(Own(trace, w)) + [CheckDuplicate(w)]
      ensures existing == RecordedJob(old(s), key.id)
      ensures existing.Some? ==> PcOf(s, w) == Reporting(key, existing.value) && RecordedJob(s, key.id).Some?
      ensures existing.None? ==> PcOf(s, w).Cleared? && PcOf(s, w).ticket.key == key
    {
      existing := RecordedJob(s, key.id);
      Proceed(w, CheckDuplicate(w));
      Others(w);
    }

    method ReportJob(w: nat, key: RunKey, job: string) returns (told: Telling)
      requires Valid() && PcOf(s, w) == Reporting(key, job)
      modifies this
      ensures Valid() && PcOf(s, w) == Idle
      ensures var report := ReportSubmission(w, told.train, told.validation, told.applied, told.acknowledged);
              Own(trace, w) == old(Own(trace, w)) + [report]
      ensures told.accepted ==> told.applied && told.acknowledged && Reported(key.id)
      ensures forall id :: RecordedJob(old(s), id).Some? ==> RecordedJob(s, id).Some?
    {
      var train: int, validation: int, applied: bool, acknowledged: bool := *, *, *, *;
      var accepted := applied && acknowledged && Accepted(s, key, SubmittedReport(job, train, validation));
      if accepted { AcceptanceIsRecorded(s, w, key, job, train, validation); }
      PcMoves(s, ReportSubmission(w, train, validation, applied, acknowledged), w);
      Act(ReportSubmission(w, train, validation, applied, acknowledged));
      told := Telling(train, validation, applied, acknowledged, accepted);
    }

    // The half of `run_once` that may start a job: intent, launcher, local
    // record, report, in that order.
    method SubmitCleared(w: nat, key: RunKey) returns (end: Ended, ghost mine: seq<Action>)
      requires Valid() && PcOf(s, w).Cleared? && PcOf(s, w).ticket.key == key
      modifies this
      ensures Valid() && PcOf(s, w) == Idle && Own(trace, w) == old(Own(trace, w)) + mine
      ensures (end.Submitted? || end.NotSubmitted?) && end.key == key && SubmissionScript(end, mine)
      ensures end.Submitted? ==> RecordedJob(s, key.id).Some? && (end.told ==> Reported(key.id))
    {
      ghost var before := Own(trace, w);
      var launched, printed, job := CallLauncher(w, key);
      ghost var start := [RecordIntent(w), launched];
      if printed {
        Proceed(w, RecordJob(w));
        Others(w);
        var told := ReportJob(w, key, job.value);
        ghost var report := ReportSubmission(w, told.train, told.validation, told.applied, told.acknowledged);
        mine := start + [RecordJob(w), report];
        assert before + start + [RecordJob(w)] + [report] == before + mine;
        end := Ended.Submitted(key, job.value, told.accepted);
      } else {
        var error: string, applied: bool := *, *;
        Proceed(w, ReportFailure(w, error, applied));
        mine := start + [ReportFailure(w, error, applied)];
        assert before + start + [ReportFailure(w, error, applied)] == before + mine;
        end := NotSubmitted(key);
      }
    }

    // The intent is on disk before the launcher is called.
    method CallLauncher(w: nat, key: RunKey) returns (launched: Action, printed: bool, job: Option<string>)
      requires Valid() && PcOf(s, w).Cleared? && PcOf(s, w).ticket.key == key
      modifies this
      ensures Valid() && Own(trace, w) == old(Own(trace, w)) + [RecordIntent(w), launched]
      ensures launched.Launch? && launched.w == w && launched.job == job && printed == (launched.printed && job.Some?)
      ensures PcOf(s, w).Launched? && PcOf(s, w).ticket.key == key
      ensures PcOf(s, w).printed == if printed then job else None
    {
      ghost var before := Own(trace, w);
      Proceed(w, RecordIntent(w));
      Others(w);
      var shown: bool := *;
      job := *;
      launched := Launch(w, job, shown);
      Proceed(w, launched);
      assert before + [RecordIntent(w)] + [launched] == before + [RecordIntent(w), launched];
      Others(w);
      printed := shown && job.Some?;
    }
  }

  // However many invocations have run, finished or been interrupted against a
  // cluster, a run that met none of the hazards has been given one job at
  // most.
  lemma InvocationsStartOneJob(cluster: Cluster, key: RunKey)
    requires cluster.Valid() && Safety.HazardFree(Start(cluster.courses), cluster.trace, key)
    ensures |JobsOf(cluster.s, key)| <= 1
  {
    Safety.AtMostOneJob(cluster.courses, cluster.trace, key);
  }
}
