/** The queue workers on the cluster, their durable local records, and the jobs
    their launcher calls start (`training/run_training_queue.py`,
    `scripts/lib/training_state.py`).

    One action is one thing that happens somewhere: a request that reaches the
    backend, a local file write, a launcher call, a crash, time passing. A
    reply may be lost after its request was applied, so delivery is part of
    the action. An action that is not possible where it occurs changes nothing. */
module TrainingWorker {
  import opened Common
  import opened TrainingDatabase

  // training/state/runs/<runId>.json
  datatype Record = Record(course: string, job: Option<string>, reported: bool)

  // What a worker remembers of the claim it was handed.
  datatype Ticket = Ticket(key: RunKey, attempt: nat, expires: int)

  // Where `run_once` is.
  datatype Pc =
    | Idle
    | Holding(ticket: Ticket)                             // claimed
    | Cleared(ticket: Ticket)                             // duplicate check found no job
    | Armed(ticket: Ticket)                               // intent recorded, launcher next
    | Launched(ticket: Ticket, printed: Option<string>)   // launcher returned
    | Reporting(key: RunKey, job: string)                 // job known, backend not told

  datatype Sys = Sys(
    now: int,
    db: Db,
    records: map<string, Record>,
    workers: map<nat, Pc>,
    jobs: map<RunKey, seq<string>>)

  function Start(courses: set<string>): Sys { Sys(0, NewDatabase(courses), map[], map[], map[]) }

  function PcOf(s: Sys, w: nat): Pc { if w in s.workers then s.workers[w] else Idle }

  // Every job the cluster was ever given for a run.
  function JobsOf(s: Sys, key: RunKey): seq<string> { if key in s.jobs then s.jobs[key] else [] }

  function RecordedJob(s: Sys, id: string): Option<string> {
    if id in s.records then s.records[id].job else None
  }

  datatype Action =
    | Tick(elapsed: nat)
    | Backend(event: TrainingDatabase.Event)              // administrators, professors, compute nodes
    | ClaimRun(w: nat, key: RunKey, owner: string, lease: int, courses: Option<set<string>>, locked: set<RunKey>,
        delivered: bool)
    | CheckDuplicate(w: nat)
    | GiveBack(w: nat, error: string, permanent: bool, applied: bool)
    | RecordIntent(w: nat)
    | Launch(w: nat, job: Option<string>, printed: bool)
    | RecordJob(w: nat)
    | ReportSubmission(w: nat, train: int, validation: int, applied: bool, acknowledged: bool)
    | ReportFailure(w: nat, error: string, applied: bool)
    | Crash(w: nat)
    | Reconcile(id: string, train: int, validation: int, applied: bool, acknowledged: bool)
    | NodeRecords(key: RunKey, own: string)               // a job recording itself
    | NodeReported(id: string)                            // mark_run_reported

  // `write_run_record` merges: a job id, once written, is kept.
  function Merged(records: map<string, Record>, key: RunKey, job: Option<string>, reported: bool): map<string, Record> {
    var known := if key.id in records then records[key.id].job else None;
    records[key.id := Record(key.course, if job.Some? then job else known, reported)]
  }

  // Reports only a worker sends.
  predicate FromWorker(e: TrainingDatabase.Event) {
    e.Claim? || (e.Callback? && !e.callback.Completed? && !e.callback.TrainingFailed?)
  }

  function Posted(s: Sys, key: RunKey, c: Callback, applied: bool): Db {
    if applied then Step(s.db, s.now, Callback(key, c)) else s.db
  }

  function Accepted(s: Sys, key: RunKey, c: Callback): bool { Callbacks(s.db, s.now, key, c).Applied? }

  function At(s: Sys, w: nat, pc: Pc): Sys { s.(workers := s.workers[w := pc]) }

  function Do(s: Sys, e: Action): Sys {
    match e
    case Tick(elapsed) => s.(now := s.now + elapsed)
    case Backend(event) => if FromWorker(event) then s else s.(db := Step(s.db, s.now, event))
    case ClaimRun(w, key, owner, lease, courses, locked, delivered) =>
      if PcOf(s, w) != Idle || owner == "" || lease <= 0 || !IsNext(s.db.runs, s.now, courses, locked, key) then s
      else
        var row := ClaimedRun(s.db.runs[key], s.now, owner, lease);
        var claimed := s.(db := WithRun(s.db, key, row));
        if delivered then At(claimed, w, Holding(Ticket(key, row.attempt, s.now + lease))) else claimed
    case CheckDuplicate(w) =>
      if !PcOf(s, w).Holding? then s
      else
        var ticket := PcOf(s, w).ticket;
        var job := RecordedJob(s, ticket.key.id);
        At(s, w, if job.Some? then Reporting(ticket.key, job.value) else Cleared(ticket))
    case GiveBack(w, error, permanent, applied) =>
      if !PcOf(s, w).Cleared? then s
      else
        var report := if permanent then Refusal(error) else Release(Some(error));
        At(s.(db := Posted(s, PcOf(s, w).ticket.key, report, applied)), w, Idle)
    case RecordIntent(w) =>
      if !PcOf(s, w).Cleared? then s
      else
        var ticket := PcOf(s, w).ticket;
        At(s.(records := Merged(s.records, ticket.key, None, false)), w, Armed(ticket))
    case Launch(w, job, printed) =>
      if !PcOf(s, w).Armed? then s
      else
        var ticket := PcOf(s, w).ticket;
        var started := if job.Some? then s.(jobs := s.jobs[ticket.key := JobsOf(s, ticket.key) + [job.value]]) else s;
        At(started, w, Launched(ticket, if printed then job else None))
    case RecordJob(w) =>
      if !PcOf(s, w).Launched? || PcOf(s, w).printed.None? then s
      else
        var pc := PcOf(s, w);
        var recorded := s.(records := Merged(s.records, pc.ticket.key, pc.printed, false));
        At(recorded, w, Reporting(pc.ticket.key, pc.printed.value))
    case ReportSubmission(w, train, validation, applied, acknowledged) =>
      if !PcOf(s, w).Reporting? then s
      else
        var pc := PcOf(s, w);
        var report := SubmittedReport(pc.job, train, validation);
        var told := s.(db := Posted(s, pc.key, report, applied));
        At(if applied && acknowledged && Accepted(s, pc.key, report)
           then told.(records := Merged(s.records, pc.key, Some(pc.job), true)) else told, w, Idle)
    case ReportFailure(w, error, applied) =>
      if !PcOf(s, w).Launched? || PcOf(s, w).printed.Some? then s
      else At(s.(db := Posted(s, PcOf(s, w).ticket.key, SubmissionFailed(error), applied)), w, Idle)
    case Crash(w) => At(s, w, Idle)
    case Reconcile(id, train, validation, applied, acknowledged) =>
      if id !in s.records || s.records[id].job.None? || s.records[id].reported then s
      else
        var key := RunKey(s.records[id].course, id);
        var report := SubmittedReport(s.records[id].job.value, train, validation);
        var told := s.(db := Posted(s, key, report, applied));
        if applied && acknowledged && Settled(Callbacks(s.db, s.now, key, report))
        then told.(records := Merged(s.records, key, s.records[id].job, true)) else told
    case NodeRecords(key, job) =>
      if job !in JobsOf(s, key) then s
      else s.(records := Merged(s.records, key, Some(job), key.id in s.records && s.records[key.id].reported))
    case NodeReported(id) =>
      if id !in s.records then s else s.(records := s.records[id := s.records[id].(reported := true)])
  }

  // An acceptance, or a refusal the worker takes as final.
  predicate Settled(o: Outcome) { o.Applied? || o.status == 404 || o.status == 409 }

  function Perform(s: Sys, es: seq<Action>): Sys
    decreases |es|
  {
    if es == [] then s else Perform(Do(s, es[0]), es[1..])
  }

  lemma {:induction false} PerformAppend(s: Sys, a: seq<Action>, b: seq<Action>)
    ensures Perform(s, a + b) == Perform(Perform(s, a), b)
    decreases |a|
  {
    if a == [] { assert a + b == b; } else {
      assert (a + b)[1..] == a[1..] + b;
      PerformAppend(Do(s, a[0]), a[1..], b);
    }
  }
}
