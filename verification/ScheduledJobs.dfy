/**
 The scheduled-job tables and the guarded statements that race on them. Each function is one
 committed statement or transaction; its guard is evaluated again when the statement runs.
 */
module ScheduledJobs {
  import opened Listing

  /** Milliseconds since the epoch. */
  type Instant = int

  /** JSON documents up to hasSameJsonValue: equal values are documents with the same sorted form. */
  type Json = string

  datatype JobStatus = Active | Paused | Disabled | Deleted

  datatype RunStatus = Pending | Running | Succeeded | Failed | SkippedOffline

  predicate Terminal(s: RunStatus) { s.Succeeded? || s.Failed? || s.SkippedOffline? }

  datatype Trigger = Manual | Schedule

  /** lastRunAt, lastRunStatus, lastErrorCode and lastErrorMessage, which are null together. */
  datatype Summary = Summary(at: Instant, status: RunStatus, code: Option<string>, message: Option<string>)

  /** The columns that say what to run. */
  datatype About = About(name: string, agent: string, prompt: string, model: Option<string>, command: Option<string>)

  datatype Job = Job(
    org: string, node: string, about: About, cron: string, zone: string, status: JobStatus,
    nextRunAt: Instant, lastScheduledFor: Option<Instant>, last: Option<Summary>)

  /** What completeRun stores and compares. */
  datatype Report = Report(status: RunStatus, response: Option<string>, code: Option<string>, message: Option<string>,
                           details: Option<Json>)

  /** Which statement ended the run; not a column, but what the claims about summaries speak of. */
  datatype Ending = Unended | Completed | Stale | Skipped | Undispatched

  datatype Run = Run(
    job: string, org: string, node: string, scheduledFor: Instant, trigger: Trigger, createdAt: Instant,
    startedAt: Option<Instant>, finishedAt: Option<Instant>, report: Report, ending: Ending)

  datatype Tables = Tables(jobs: map<string, Job>, runs: map<string, Run>)

  /** computeNextRunAt for a cron text and a zone; None when it throws. */
  type Next = (string, string, Instant) -> Option<Instant>

  /** The one fact the protocol needs of `scheduled/cron.ts`; module Cron proves it. */
  ghost predicate StrictlyLater(next: Next) {
    forall cron, zone, now :: next(cron, zone, now).Some? ==> now < next(cron, zone, now).value
  }

  const DUE_GRACE_MS := 60_000

  predicate Visible(t: Tables, j: string) { j in t.jobs && !t.jobs[j].status.Deleted? }

  // ---- Recurring occurrences ----

  /** The where clause of the claiming update, without the ownership subqueries. */
  predicate Claimable(t: Tables, j: string, node: string, due: Instant) {
    j in t.jobs && t.jobs[j].node == node && t.jobs[j].status.Active? && t.jobs[j].nextRunAt == due
  }

  /** scheduled_job_runs_job_id_scheduled_for_uq would refuse another scheduled run. */
  predicate Taken(t: Tables, j: string, due: Instant) {
    exists r :: r in t.runs && t.runs[r].trigger.Schedule? && t.runs[r].job == j && t.runs[r].scheduledFor == due
  }

  function NewRun(t: Tables, j: string, node: string, at: Instant, trigger: Trigger, now: Instant): Run
    requires j in t.jobs
  {
    Run(j, t.jobs[j].org, node, at, trigger, now, None, None, Report(Pending, None, None, None, None), Unended)
  }

  predicate ClaimSucceeds(t: Tables, j: string, node: string, due: Instant, run: string, authorized: bool) {
    authorized && Claimable(t, j, node, due) && run !in t.runs && !Taken(t, j, due)
  }

  /** The write half of claimScheduledJob. A refused insert rolls the update back. */
  function AfterClaim(t: Tables, j: string, node: string, due: Instant, next: Instant, run: string, now: Instant,
                      authorized: bool): Tables {
    if ClaimSucceeds(t, j, node, due, run, authorized)
    then Tables(t.jobs[j := t.jobs[j].(nextRunAt := next, lastScheduledFor := Some(due))],
                t.runs[run := NewRun(t, j, node, due, Schedule, now)])
    else t
  }

  /** The guarded update of fastForwardOverdueJob. */
  function AfterAdvance(t: Tables, j: string, node: string, seen: Instant, next: Instant, authorized: bool): Tables {
    if authorized && Claimable(t, j, node, seen) then t.(jobs := t.jobs[j := t.jobs[j].(nextRunAt := next)]) else t
  }

  // ---- Editing jobs ----

  /** Fields that are given; a given model or command may be null. */
  datatype Edit = Edit(
    node: Option<string>, cron: Option<string>, zone: Option<string>, name: Option<string>, agent: Option<string>,
    prompt: Option<string>, model: Option<Option<string>>, command: Option<Option<string>>)

  function Or<T>(o: Option<T>, default: T): T { if o.Some? then o.value else default }

  /** nextRunAt after updateScheduledJob; None when the schedule is rejected. */
  function EditedNext(job: Job, edit: Edit, next: Next, now: Instant): Option<Instant> {
    if edit.cron.Some? || edit.zone.Some? || job.status.Active?
    then next(Or(edit.cron, job.cron), Or(edit.zone, job.zone), now)
    else Some(job.nextRunAt)
  }

  function EditedAbout(about: About, edit: Edit): About {
    About(Or(edit.name, about.name), Or(edit.agent, about.agent), Or(edit.prompt, about.prompt),
          Or(edit.model, about.model), Or(edit.command, about.command))
  }

  function EditedRow(job: Job, edit: Edit, at: Instant): Job {
    job.(node := Or(edit.node, job.node), about := EditedAbout(job.about, edit), cron := Or(edit.cron, job.cron),
    zone := Or(edit.zone, job.zone), nextRunAt := at)
  }

  /** `isValid` says whether the resulting expression and zone pass validation, which is done in any case. */
  function AfterUpdate(t: Tables, j: string, edit: Edit, next: Next, now: Instant, isValid: bool): Tables {
    if Visible(t, j) && isValid && EditedNext(t.jobs[j], edit, next, now).Some?
    then t.(jobs := t.jobs[j := EditedRow(t.jobs[j], edit, EditedNext(t.jobs[j], edit, next, now).value)])
    else t
  }

  /** pause, disable and delete check visibility first, in a statement of their own. */
  function AfterStatus(t: Tables, j: string, status: JobStatus): Tables {
    if j in t.jobs then t.(jobs := t.jobs[j := t.jobs[j].(status := status)]) else t
  }

  /** The write half of resumeScheduledJob, which has no guard besides the id. */
  function AfterResume(t: Tables, j: string, next: Instant): Tables {
    if j in t.jobs then t.(jobs := t.jobs[j := t.jobs[j].(status := Active, nextRunAt := next)]) else t
  }

  function AfterCreate(t: Tables, j: string, org: string, node: string, about: About, cron: string, zone: string,
                       next: Instant): Tables {
    if j in t.jobs then t else t.(jobs := t.jobs[j := Job(org, node, about, cron, zone, Active, next, None, None)])
  }

  // ---- Runs ----

  function AfterRunNow(t: Tables, j: string, run: string, node: string, now: Instant): Tables {
    if j in t.jobs && run !in t.runs then t.(runs := t.runs[run := NewRun(t, j, node, now, Manual, now)]) else t
  }

  datatype StartReply = Started | AlreadyRunning | StartUnavailable

  function StartReplyOf(t: Tables, run: string, node: string, authorized: bool): StartReply {
    if run !in t.runs || t.runs[run].node != node || !authorized then StartUnavailable
    else if t.runs[run].report.status.Running? then AlreadyRunning
    else
      var r := t.runs[run];
      var parent := r.job in t.jobs && t.jobs[r.job].node == node && t.jobs[r.job].status.Active?;
      if r.report.status.Pending? && (r.trigger.Manual? || parent) then Started else StartUnavailable
  }

  function AfterStart(t: Tables, run: string, node: string, at: Instant, authorized: bool): Tables {
    if StartReplyOf(t, run, node, authorized).Started?
    then
      var report := t.runs[run].report.(status := Running);
      t.(runs := t.runs[run := t.runs[run].(startedAt := Some(at), report := report)])
    else t
  }

  /** What an ended run says to its job. */
  function SummaryOf(r: Run): Summary {
    var failed := r.report.status.Failed?;
    Summary(if r.ending.Stale? then Or(r.startedAt, r.createdAt) else Or(r.finishedAt, r.createdAt), r.report.status,
            if failed then r.report.code else None, if failed then r.report.message else None)
  }

  /** The guarded summary update: a newer summary is never replaced by an older one. */
  function Bumped(last: Option<Summary>, s: Summary): Option<Summary> {
    if last.None? || last.value.at <= s.at then Some(s) else last
  }

  function WithSummary(jobs: map<string, Job>, j: string, s: Summary): map<string, Job> {
    if j in jobs then jobs[j := jobs[j].(last := Bumped(jobs[j].last, s))] else jobs
  }

  datatype CompleteReply = Accepted | Rejected | CompleteUnavailable

  predicate CanComplete(t: Tables, run: string, node: string, authorized: bool) {
    authorized && run in t.runs && t.runs[run].node == node && !Terminal(t.runs[run].report.status)
  }

  function CompleteReplyOf(t: Tables, run: string, node: string, report: Report, authorized: bool): CompleteReply {
    if !authorized || run !in t.runs || t.runs[run].node != node then CompleteUnavailable
    else if !Terminal(t.runs[run].report.status) || t.runs[run].report == report then Accepted
    else if t.runs[run].trigger.Schedule? then Rejected
    else CompleteUnavailable
  }

  function AfterComplete(t: Tables, run: string, node: string, report: Report, at: Instant, authorized: bool): Tables {
    if CanComplete(t, run, node, authorized)
    then
      var ended := t.runs[run].(finishedAt := Some(at), report := report, ending := Completed);
      Tables(WithSummary(t.jobs, ended.job, SummaryOf(ended)), t.runs[run := ended])
    else t
  }

  /** A row ended by something other than its own completion. */
  function EndedRow(r: Run, ending: Ending, status: RunStatus, code: string, message: string, now: Instant): Run {
    var report := r.report.(status := status, code := Some(code), message := Some(message));
    r.(finishedAt := Some(now), ending := ending, report := report)
  }

  /** markRunSkippedOffline. */
  function AfterSkip(t: Tables, run: string, node: string, reason: string, now: Instant): Tables {
    if run in t.runs && t.runs[run].node == node && t.runs[run].report.status.Pending?
    then t.(runs := t.runs[run := EndedRow(t.runs[run], Skipped, SkippedOffline, "NODE_OFFLINE", reason, now)])
    else t
  }

  const NOT_DISPATCHED := "Scheduled job run could not be dispatched to the queue"

  /** markRunNowDispatchFailed. */
  function AfterDispatchFailed(t: Tables, run: string, j: string, org: string, now: Instant): Tables {
    var isPending := run in t.runs && t.runs[run].report.status.Pending?;
    if isPending && t.runs[run].job == j && t.runs[run].org == org && t.runs[run].trigger.Manual? then
      var row := EndedRow(t.runs[run], Undispatched, Failed, "QUEUE_DISPATCH_FAILED", NOT_DISPATCHED, now);
      t.(runs := t.runs[run := row])
    else t
  }

  // ---- Stale cleanup ----

  predicate Abandoned(r: Run, threshold: Instant) { r.report.status.Pending? && r.createdAt < threshold }

  predicate Interrupted(r: Run, threshold: Instant) {
    r.report.status.Running? && r.startedAt.Some? && r.startedAt.value < threshold
  }

  const NOT_STARTED := "Daemon interrupted before the run started"

  const NOT_FINISHED := "Daemon interrupted while the run was executing"

  function Swept(r: Run, threshold: Instant, now: Instant): Run {
    if Abandoned(r, threshold) then EndedRow(r, Skipped, SkippedOffline, "DAEMON_INTERRUPTED", NOT_STARTED, now)
    else if Interrupted(r, threshold) then EndedRow(r, Stale, Failed, "DAEMON_INTERRUPTED", NOT_FINISHED, now)
    else r
  }

  function SweptRuns(runs: map<string, Run>, threshold: Instant, now: Instant): map<string, Run> {
    map r | r in runs :: Swept(runs[r], threshold, now)
  }

  /** The loop over failedRuns, in the order the database returned them. */
  function SummarizedAll(jobs: map<string, Job>, runs: map<string, Run>, failed: seq<string>): map<string, Job>
    requires forall k :: 0 <= k < |failed| ==> failed[k] in runs
  {
    if failed == [] then jobs
    else
      var rest := failed[..|failed| - 1];
      var r := failed[|failed| - 1];
      WithSummary(SummarizedAll(jobs, runs, rest), runs[r].job, SummaryOf(runs[r]))
  }

  /** `failed` lists every interrupted run once. */
  ghost predicate ListsInterrupted(t: Tables, threshold: Instant, failed: seq<string>) {
    && (forall r :: r in failed <==> r in t.runs && Interrupted(t.runs[r], threshold))
    && (forall i, k :: 0 <= i < k < |failed| ==> failed[i] != failed[k])
  }

  function AfterSweep(t: Tables, threshold: Instant, now: Instant, failed: seq<string>): Tables
    requires forall k :: 0 <= k < |failed| ==> failed[k] in t.runs
  {
    var runs := SweptRuns(t.runs, threshold, now);
    Tables(SummarizedAll(t.jobs, runs, failed), runs)
  }
}
