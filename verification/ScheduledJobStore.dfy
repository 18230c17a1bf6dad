/** The services as methods on the two tables; each ends in the state its step function names. */
module ScheduledJobStore {
  import opened Listing
  import opened ScheduledJobs
  import opened ScheduledJobProtocol

  datatype ClaimReply = Claimed(run: string, scheduledFor: Instant) | ClaimUnavailable | InvalidSchedule

  class Store {
    var jobs: map<string, Job>
    var runs: map<string, Run>

    constructor ()
      ensures Rows() == Tables(map[], map[])
    {
      jobs, runs := map[], map[];
    }

    function Rows(): Tables
      reads this
    {
      Tables(jobs, runs)
    }

    /** The reading half of claimScheduledJob: what the write will need, or why there is none. */
    method ReadClaim(j: string, node: string, expected: Instant, now: Instant, isMember: bool, next: Next)
      returns (reply: ClaimReply, claim: Option<Inflight>)
      ensures claim.Some? <==>
              && isMember && j in jobs && jobs[j].node == node && jobs[j].nextRunAt == expected
              && expected <= now <= expected + 60_000 && next(jobs[j].cron, jobs[j].zone, now).Some?
      ensures claim.Some? ==> claim.value == Claiming(j, node, expected, next(jobs[j].cron, jobs[j].zone, now).value)
      ensures claim.None? ==> reply.InvalidSchedule? || reply.ClaimUnavailable?
      ensures claim.None? && reply.InvalidSchedule? ==> j in jobs && next(jobs[j].cron, jobs[j].zone, now).None?
    {
      claim := None;
      reply := ClaimUnavailable;
      if j !in jobs || jobs[j].node != node || !isMember {
        return;
      }
      var job := jobs[j];
      if job.nextRunAt != expected || now < job.nextRunAt || now > job.nextRunAt + DUE_GRACE_MS {
        return;
      }
      var nextRunAt := next(job.cron, job.zone, now);
      if nextRunAt.None? {
        reply := InvalidSchedule;
        return;
      }
      claim := Some(Claiming(j, node, expected, nextRunAt.value));
    }

    /** The writing half: the guarded update, then the insert; a refused insert rolls the update back. */
    method WriteClaim(c: Inflight, run: string, now: Instant, authorized: bool) returns (reply: ClaimReply)
      requires c.Claiming?
      modifies this
      ensures reply == if old(ClaimSucceeds(Rows(), c.job, c.node, c.due, run, authorized)) then Claimed(run, c.due)
                       else ClaimUnavailable
      ensures Rows() == old(AfterClaim(Rows(), c.job, c.node, c.due, c.next, run, now, authorized))
    {
      if !authorized || !Claimable(Rows(), c.job, c.node, c.due) {
        return ClaimUnavailable;
      }
      var before := jobs;
      jobs := jobs[c.job := jobs[c.job].(nextRunAt := c.next, lastScheduledFor := Some(c.due))];
      if run in runs || Taken(Tables(jobs, runs), c.job, c.due) {
        jobs := before;
        return ClaimUnavailable;
      }
      runs := runs[run := NewRun(Tables(jobs, runs), c.job, c.node, c.due, Schedule, now)];
      return Claimed(run, c.due);
    }

    /** fastForwardOverdueJob for a snapshot `seen` of the job row. */
    method FastForwardOverdueJob(j: string, seen: Job, now: Instant, authorized: bool,
                                 next: Next) returns (isRejected: bool)
      modifies this`jobs
      ensures isRejected <==> seen.nextRunAt <= now && next(seen.cron, seen.zone, now).None?
      ensures Rows() == if seen.nextRunAt > now || isRejected then old(Rows())
                        else old(AfterAdvance(Rows(), j, seen.node, seen.nextRunAt,
                                              next(seen.cron, seen.zone, now).value, authorized))
    {
      if seen.nextRunAt > now {
        return false;
      }
      var nextRunAt := next(seen.cron, seen.zone, now);
      if nextRunAt.None? {
        return true;
      }
      if authorized && Claimable(Rows(), j, seen.node, seen.nextRunAt) {
        jobs := jobs[j := jobs[j].(nextRunAt := nextRunAt.value)];
      }
      return false;
    }

    /**
     reconcileScheduledJobs: every overdue job among the authorized `active` jobs of the node moves to its next
     occurrence, except the occurrences its timers protect. A rejected schedule fails the call but not the other jobs.
     */
    method ReconcileScheduledJobs(node: string, active: seq<string>, protected: map<string, Instant>, now: Instant,
                                  next: Next) returns (rejected: set<string>)
      requires forall j :: j in active ==> j in jobs && jobs[j].node == node && jobs[j].status.Active?
      requires forall i, k :: 0 <= i < k < |active| ==> active[i] != active[k]
      modifies this`jobs
      ensures jobs.Keys == old(jobs).Keys
      ensures forall j :: j in jobs && j !in active ==> jobs[j] == old(jobs)[j]
      ensures forall j :: j in active ==>
                            j in jobs && jobs[j] == Reconciled(old(jobs)[j], j, node, protected, now, next)
      ensures rejected == set j | j in active && Blocked(old(jobs)[j], j, node, protected, now, next)
    {
      rejected := {};
      var snapshot := jobs;
      for i := 0 to |active|
        invariant jobs.Keys == snapshot.Keys
        invariant forall j :: j in jobs && j !in active[..i] ==> jobs[j] == snapshot[j]
        invariant forall j :: j in active[..i] ==> jobs[j] == Reconciled(snapshot[j], j, node, protected, now, next)
        invariant rejected == set j | j in active[..i] && Blocked(snapshot[j], j, node, protected, now, next)
      {
        var j := active[i];
        assert j in active && j !in active[..i];
        assert active[..i + 1] == active[..i] + [j];
        var isRejected := ReconcileOne(j, snapshot[j], node, protected, now, next);
        rejected := if isRejected then rejected + {j} else rejected;
      }
      assert active[..|active|] == active;
    }

    method ReconcileOne(j: string, seen: Job, node: string, protected: map<string, Instant>, now: Instant,
                        next: Next) returns (isRejected: bool)
      requires j in jobs && jobs[j] == seen && seen.node == node && seen.status.Active?
      modifies this`jobs
      ensures jobs == old(jobs)[j := Reconciled(seen, j, node, protected, now, next)]
      ensures isRejected <==> Blocked(seen, j, node, protected, now, next)
    {
      isRejected := false;
      var isProtected := j in protected && protected[j] == seen.nextRunAt;
      if !isProtected && seen.nextRunAt <= now {
        isRejected := FastForwardOverdueJob(j, seen, now, true, next);
      }
    }

    method MarkRunStarted(run: string, node: string, at: Instant, authorized: bool) returns (reply: StartReply)
      modifies this`runs
      ensures reply == old(StartReplyOf(Rows(), run, node, authorized))
      ensures Rows() == old(AfterStart(Rows(), run, node, at, authorized))
    {
      if run !in runs || runs[run].node != node || !authorized {
        return StartUnavailable;
      }
      var row := runs[run];
      if row.report.status.Running? {
        return AlreadyRunning;
      }
      var isParentActive := row.job in jobs && jobs[row.job].node == node && jobs[row.job].status.Active?;
      if row.report.status.Pending? && (row.trigger.Manual? || isParentActive) {
        runs := runs[run := row.(startedAt := Some(at), report := row.report.(status := Running))];
        return Started;
      }
      return StartUnavailable;
    }

    method CompleteRun(run: string, node: string, report: Report, at: Instant,
                       authorized: bool) returns (reply: CompleteReply)
      requires report.status.Succeeded? || report.status.Failed?
      modifies this
      ensures reply == old(CompleteReplyOf(Rows(), run, node, report, authorized))
      ensures Rows() == old(AfterComplete(Rows(), run, node, report, at, authorized))
    {
      if !authorized || run !in runs || runs[run].node != node {
        return CompleteUnavailable;
      }
      var row := runs[run];
      if row.report.status.Pending? || row.report.status.Running? {
        runs := runs[run := row.(finishedAt := Some(at), report := report, ending := Completed)];
        if row.job in jobs && (jobs[row.job].last.None? || jobs[row.job].last.value.at <= at) {
          var isFailed := report.status.Failed?;
          var summary := Summary(at, report.status, if isFailed then report.code else None, if isFailed
                                 then report.message else None);
          jobs := jobs[row.job := jobs[row.job].(last := Some(summary))];
        }
        return Accepted;
      }
      if row.report == report {
        return Accepted;
      }
      return if row.trigger.Schedule? then Rejected else CompleteUnavailable;
    }

    /** The ids the second bulk update returns, in some order. */
    method ListInterrupted(threshold: Instant) returns (failed: seq<string>)
      ensures ListsInterrupted(Rows(), threshold, failed)
    {
      failed := [];
      var pending := set r | r in runs && Interrupted(runs[r], threshold);
      while pending != {}
        invariant forall r :: r in failed || r in pending <==> r in runs && Interrupted(runs[r], threshold)
        invariant forall r :: r in pending ==> r !in failed
        invariant forall i, k :: 0 <= i < k < |failed| ==> failed[i] != failed[k]
        decreases |pending|
      {
        var r :| r in pending;
        pending := pending - {r};
        failed := failed + [r];
      }
    }

    method SummarizeFailedRuns(failed: seq<string>)
      requires forall k :: 0 <= k < |failed| ==>
                             failed[k] in runs && runs[failed[k]].ending.Stale? && runs[failed[k]].report.status.Failed?
      modifies this`jobs
      ensures jobs == old(SummarizedAll(jobs, runs, failed))
    {
      for i := 0 to |failed|
        invariant jobs == SummarizedAll(old(jobs), runs, failed[..i])
      {
        var row := runs[failed[i]];
        assert failed[..i + 1][..i] == failed[..i];
        var runSummaryAt := Or(row.startedAt, row.createdAt);
        if row.job in jobs && (jobs[row.job].last.None? || jobs[row.job].last.value.at <= runSummaryAt) {
          var summary := Summary(runSummaryAt, row.report.status, row.report.code, row.report.message);
          jobs := jobs[row.job := jobs[row.job].(last := Some(summary))];
        }
      }
      assert failed[..|failed|] == failed;
    }

    /** terminalizeStaleRuns: two bulk updates, then one guarded summary update per failed run. */
    method TerminalizeStaleRuns(threshold: Instant, now: Instant) returns (failed: seq<string>)
      modifies this
      ensures old(ListsInterrupted(Rows(), threshold, failed))
      ensures Rows() == old(AfterSweep(Rows(), threshold, now, failed))
    {
      failed := ListInterrupted(threshold);
      ghost var before := Rows();
      assert forall k :: 0 <= k < |failed| ==> failed[k] in failed && Interrupted(before.runs[failed[k]], threshold);
      runs := SweptRuns(runs, threshold, now);
      SummarizeFailedRuns(failed);
    }

    /** updateScheduledJob, under the row lock it takes; `valid` is the validation of expression and zone. */
    method UpdateScheduledJob(j: string, edit: Edit, now: Instant, next: Next,
                              valid: (string, string) -> bool) returns (isUpdated: bool)
      modifies this`jobs
      ensures isUpdated <==>
              && old(Visible(Rows(), j)) && valid(Or(edit.cron, old(jobs)[j].cron), Or(edit.zone, old(jobs)[j].zone))
              && EditedNext(old(jobs)[j], edit, next, now).Some?
      ensures Rows() == if isUpdated then old(AfterUpdate(Rows(), j, edit, next, now, true)) else old(Rows())
    {
      if j !in jobs || jobs[j].status.Deleted? {
        return false;
      }
      var existing := jobs[j];
      var cron, zone := Or(edit.cron, existing.cron), Or(edit.zone, existing.zone);
      if !valid(cron, zone) {
        return false;
      }
      var shouldRecompute := edit.cron.Some? || edit.zone.Some? || existing.status.Active?;
      var nextRunAt := if shouldRecompute then next(cron, zone, now) else Some(existing.nextRunAt);
      if nextRunAt.None? {
        return false;
      }
      jobs := jobs[j := existing.(
      node := Or(edit.node, existing.node), about := EditedAbout(existing.about, edit), cron := cron, zone := zone,
      nextRunAt := nextRunAt.value)];
      return true;
    }
  }

  /** An active job of the node whose due occurrence no timer of the node still protects. */
  predicate Overdue(job: Job, j: string, node: string, protected: map<string, Instant>, now: Instant) {
    job.node == node && job.status.Active? && !(j in protected && protected[j] == job.nextRunAt) && job.nextRunAt <= now
  }

  predicate Blocked(job: Job, j: string, node: string, protected: map<string, Instant>, now: Instant, next: Next) {
    Overdue(job, j, node, protected, now) && next(job.cron, job.zone, now).None?
  }

  function Reconciled(job: Job, j: string, node: string, protected: map<string, Instant>, now: Instant,
                      next: Next): (r: Job)
    ensures StrictlyLater(next) && Overdue(r, j, node, protected, now) ==> Blocked(r, j, node, protected, now, next)
  {
    if Overdue(job, j, node, protected, now) && next(job.cron, job.zone, now).Some?
    then job.(nextRunAt := next(job.cron, job.zone, now).value)
    else job
  }

  /** An active job of the node moves exactly when it is overdue, unprotected and has a next occurrence. */
  lemma ReconciledMeans(job: Job, j: string, node: string, protected: map<string, Instant>, now: Instant, next: Next)
    requires job.node == node && job.status == Active
    ensures var r := Reconciled(job, j, node, protected, now, next);
            var isBlocked := Blocked(job, j, node, protected, now, next);
            if now < job.nextRunAt || (j in protected && protected[j] == job.nextRunAt) then r == job && !isBlocked
            else
              match next(job.cron, job.zone, now)
              case None => r == job && isBlocked
              case Some(at) => r == job.(nextRunAt := at) && !isBlocked
  {}
}
