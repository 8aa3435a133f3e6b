/** The queue's answers as the senders of pending reports take them
    (`backend/app/training_queue_routes.py:420-491,940-1150`,
    `training/report_training_result.py:289-332`). */
module ReportAnswers {
  import opened Common
  import Pending = PendingReports
  import opened TrainingDatabase
  import Laws = TrainingDatabaseLaws

  function ReplyTo(o: Outcome): Pending.Reply { if o.Applied? then Pending.Accepted else Pending.Refused(o.status) }

  // Every answer the backend gives to a completion it can read ends that
  // report: delivered when it was applied, superseded when it was refused.
  // Only one it cannot read stays on disk.
  lemma EveryAnswerSettles(db: Db, now: int, key: RunKey, report: Report)
    requires key in db.runs ==> key.course in db.courses
    ensures var o := Callbacks(db, now, key, Completed(report));
            Pending.FateOf(Pending.Completion, ReplyTo(o))
            == (if o.Applied? then Pending.Delivered
                else if Acceptable(report) then Pending.Superseded else Pending.Undelivered)
            && (Acceptable(report) ==> Pending.Answers(ReplyTo(o)))
  {
    Laws.RefusalsAreFinal(db, now, key, Completed(report));
  }

  // So of a run that was retired, or that is not there, nothing stays pending,
  // and nothing reaches the queue.
  lemma RetiredRunsReportGoes(db: Db, now: int, key: RunKey, owner: string, report: Report)
    requires key in db.runs ==> key.course in db.courses && Laws.Retired(db, key, owner)
    requires Acceptable(report)
    ensures var o := Callbacks(db, now, key, Completed(report));
            ReplyTo(o) == Pending.Refused(if key in db.runs then 409 else 404)
            && Pending.FateOf(Pending.Completion, ReplyTo(o)) == Pending.Superseded
            && Step(db, now, Callback(key, Completed(report))) == db
  {
    EveryAnswerSettles(db, now, key, report);
    Laws.RefusalsAreFinal(db, now, key, Completed(report));
    if key in db.runs {
      Laws.RetiredRunIsRefused(db, now, key, owner, Completed(report), None, Laws.AnyVersion, false);
    }
  }
}
