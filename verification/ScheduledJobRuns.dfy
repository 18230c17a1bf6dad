/** The life of a run and the summary its job keeps, over every interleaving. */
module ScheduledJobRuns {
  import opened Listing
  import opened ScheduledJobs
  import opened ScheduledJobProtocol

  // ---- Terminal rows are final ----

  function Rank(s: RunStatus): nat { if s.Pending? then 0 else if s.Running? then 1 else 2 }

  /** What one step may do to a run row. */
  ghost predicate Advances(before: map<string, Run>, after: map<string, Run>) {
    && before.Keys <= after.Keys
    && forall r :: r in before ==>
                     && Rank(before[r].report.status) <= Rank(after[r].report.status)
                     && (Terminal(before[r].report.status) ==> after[r] == before[r])
  }

  lemma RescheduleAdvances(db: Db, next: Next, e: Event)
    requires Enabled(db, next, e) && !AboutRuns(e)
    ensures Advances(db.t.runs, Rescheduled(db, next, e).runs)
  {}

  lemma SweepAdvances(runs: map<string, Run>, threshold: Instant, now: Instant)
    ensures Advances(runs, SweptRuns(runs, threshold, now))
  {}

  lemma RowAdvances(db: Db, next: Next, e: Event)
    requires Enabled(db, next, e) && AboutRuns(e) && !e.Sweep?
    ensures Advances(db.t.runs, RunsMoved(db, next, e).runs)
  {}

  lemma RunsAdvance(db: Db, next: Next, e: Event)
    requires Enabled(db, next, e) && AboutRuns(e)
    ensures Advances(db.t.runs, RunsMoved(db, next, e).runs)
  {
    if e.Sweep? { SweepAdvances(db.t.runs, e.threshold, db.now); } else { RowAdvances(db, next, e); }
  }

  lemma StepAdvances(db: Db, next: Next, e: Event)
    requires Enabled(db, next, e)
    ensures Advances(db.t.runs, Apply(db, next, e).t.runs)
  {
    if AboutRuns(e) { RunsAdvance(db, next, e); } else { RescheduleAdvances(db, next, e); }
  }

  /** Over any stretch of any run, a terminal row stays as it is and a status never moves back. */
  lemma {:induction false} TerminalRunsAreFinal(next: Next, states: seq<Db>, events: seq<Event>, i: nat, k: nat)
    requires IsRun(next, states, events) && i <= k < |states|
    ensures Advances(states[i].t.runs, states[k].t.runs)
    decreases k - i
  {
    if i < k {
      StepAdvances(states[i], next, events[i]);
      TerminalRunsAreFinal(next, states, events, i + 1, k);
    }
  }

  // ---- Start and completion agreement ----

  /** At most one markRunStarted call per run ever returns true. */
  lemma StartedOnce(next: Next, states: seq<Db>, events: seq<Event>, i: nat, k: nat)
    requires IsRun(next, states, events) && i < k < |events| && events[i].Start? && events[k].Start?
    requires events[i].run == events[k].run
    requires StartReplyOf(states[i].t, events[i].run, events[i].node, events[i].authorized).Started?
    ensures !StartReplyOf(states[k].t, events[k].run, events[k].node, events[k].authorized).Started?
  {
    assert states[i + 1] == Apply(states[i], next, events[i]);
    TerminalRunsAreFinal(next, states, events, i + 1, k);
    assert Rank(states[i + 1].t.runs[events[i].run].report.status) == 1;
  }

  /** An accepted completion left, or found, exactly the submitted result in the row. */
  lemma AcceptedMeansStored(db: Db, next: Next, e: Event)
    requires Enabled(db, next, e) && e.Complete?
    requires CompleteReplyOf(db.t, e.run, e.node, e.report, e.authorized).Accepted?
    ensures e.run in Apply(db, next, e).t.runs && Apply(db, next, e).t.runs[e.run].report == e.report
  {}

  /** All completions of one run that were ever accepted submitted the same result. */
  lemma CompletionsAgree(next: Next, states: seq<Db>, events: seq<Event>, i: nat, k: nat)
    requires IsRun(next, states, events) && i < k < |events| && events[i].Complete? && events[k].Complete?
    requires events[i].run == events[k].run
    requires CompleteReplyOf(states[i].t, events[i].run, events[i].node, events[i].report,
                             events[i].authorized).Accepted?
    requires CompleteReplyOf(states[k].t, events[k].run, events[k].node, events[k].report,
                             events[k].authorized).Accepted?
    ensures events[i].report == events[k].report
  {
    assert Enabled(states[i], next, events[i]) && states[i + 1] == Apply(states[i], next, events[i]);
    AcceptedMeansStored(states[i], next, events[i]);
    TerminalRunsAreFinal(next, states, events, i + 1, k);
    assert Terminal(states[i + 1].t.runs[events[i].run].report.status);
  }

  /** Repeating an accepted completion, at any later time, is accepted again and changes no row. */
  lemma CompletionIsIdempotent(next: Next, states: seq<Db>, events: seq<Event>, i: nat, k: nat, at: Instant)
    requires IsRun(next, states, events) && i < k < |states| && events[i].Complete?
    requires CompleteReplyOf(states[i].t, events[i].run, events[i].node, events[i].report,
                             events[i].authorized).Accepted?
    ensures CompleteReplyOf(states[k].t, events[i].run, events[i].node, events[i].report, true).Accepted?
    ensures AfterComplete(states[k].t, events[i].run, events[i].node, events[i].report, at, true) == states[k].t
  {
    assert Enabled(states[i], next, events[i]) && states[i + 1] == Apply(states[i], next, events[i]);
    AcceptedMeansStored(states[i], next, events[i]);
    TerminalRunsAreFinal(next, states, events, i + 1, k);
    assert Terminal(states[i + 1].t.runs[events[i].run].report.status);
    assert states[i + 1].t.runs[events[i].run].node == events[i].node;
  }

  // ---- The summary of a job ----

  predicate Reports(r: Run, j: string) { r.job == j && (r.ending.Completed? || r.ending.Stale?) }

  /** The runs that reported to a job: finished by completeRun, or failed as stale. */
  function Reporters(runs: map<string, Run>, j: string): set<string> { set r | r in runs && Reports(runs[r], j) }

  /** The instant an ended run stands for: its finish, or its start when it was cut off as stale. */
  ghost predicate StandsFor(r: Run, at: Instant) {
    (r.ending == Completed && r.finishedAt == Some(at)) || (r.ending == Stale && r.startedAt == Some(at))
  }

  /** The summary columns are those of this run; the error columns are null unless it failed. */
  ghost predicate Tells(r: Run, s: Summary) {
    && StandsFor(r, s.at) && s.status == r.report.status
    && (r.report.status == Failed ==> s.code == r.report.code && s.message == r.report.message)
    && (r.report.status != Failed ==> s.code == None && s.message == None)
  }

  /** `last` is null without reporters; otherwise it is a latest report of one of them. */
  ghost predicate Latest(last: Option<Summary>, runs: map<string, Run>, reporters: set<string>) {
    && reporters <= runs.Keys
    && (last.None? <==> reporters == {})
    && (last.Some? ==> && (forall r :: r in reporters ==> exists at :: StandsFor(runs[r], at) && at <= last.value.at)
                       && (exists r :: r in reporters && Tells(runs[r], last.value)))
  }

  ghost predicate RunShaped(r: Run) {
    && (r.ending.Unended? <==> !Terminal(r.report.status))
    && (r.ending.Completed? ==> r.finishedAt.Some?)
    && (r.ending.Stale? ==> r.startedAt.Some? && r.report.status.Failed?)
  }

  ghost predicate Shaped(t: Tables) {
    forall r :: r in t.runs ==> t.runs[r].job in t.jobs && RunShaped(t.runs[r])
  }

  ghost predicate Summarized(t: Tables) {
    Shaped(t) && forall j :: j in t.jobs ==> Latest(t.jobs[j].last, t.runs, Reporters(t.runs, j))
  }

  lemma OneMoreReport(last: Option<Summary>, runs: map<string, Run>, reporters: set<string>, r: string)
    requires Latest(last, runs, reporters) && r in runs && RunShaped(runs[r])
    requires runs[r].ending.Completed? || runs[r].ending.Stale?
    ensures Latest(Bumped(last, SummaryOf(runs[r])), runs, reporters + {r})
  {
    var s := SummaryOf(runs[r]);
    assert Tells(runs[r], s);
    if last.Some? {
      forall q | q in reporters ensures exists at :: StandsFor(runs[q], at) && at <= Bumped(last, s).value.at {
        var at :| StandsFor(runs[q], at) && at <= last.value.at;
      }
    }
  }

  lemma LatestCarries(last: Option<Summary>, before: map<string, Run>, after: map<string, Run>, reporters: set<string>)
    requires Latest(last, before, reporters) && reporters <= after.Keys
    requires (forall r :: r in reporters ==> after[r] == before[r])
    ensures Latest(last, after, reporters)
  {}

  /** Rescheduling jobs, and adding new ones, leaves every summary alone. */
  lemma JobsMoved(t: Tables, jobs: map<string, Job>)
    requires Summarized(t) && t.jobs.Keys <= jobs.Keys
    requires forall j :: j in jobs ==> if j in t.jobs then jobs[j].last == t.jobs[j].last else jobs[j].last == None
    ensures Summarized(t.(jobs := jobs))
  {}

  /** So does writing one run row that had not ended and does not report now. */
  lemma RowMoved(t: Tables, run: string, row: Run)
    requires Summarized(t) && row.job in t.jobs && RunShaped(row) && !row.ending.Completed? && !row.ending.Stale?
    requires run in t.runs ==> t.runs[run].ending.Unended?
    ensures Summarized(t.(runs := t.runs[run := row]))
  {
    var runs := t.runs[run := row];
    forall j | j in t.jobs ensures Latest(t.jobs[j].last, runs, Reporters(runs, j)) {
      assert Reporters(runs, j) == Reporters(t.runs, j);
      LatestCarries(t.jobs[j].last, t.runs, runs, Reporters(t.runs, j));
    }
  }

  lemma ReportersAfterEnding(runs: map<string, Run>, run: string, row: Run, j: string)
    requires run in runs && runs[run].ending.Unended? && row.ending.Completed?
    ensures Reporters(runs[run := row], j) == if row.job == j then Reporters(runs, j) + {run} else Reporters(runs, j)
    ensures run !in Reporters(runs, j)
  {}

  lemma CompleteSummarized(t: Tables, run: string, node: string, report: Report, at: Instant, authorized: bool)
    requires Summarized(t) && (report.status.Succeeded? || report.status.Failed?)
    ensures Summarized(AfterComplete(t, run, node, report, at, authorized))
  {
    if CanComplete(t, run, node, authorized) {
      var row := t.runs[run].(finishedAt := Some(at), report := report, ending := Completed);
      var runs := t.runs[run := row];
      var jobs := WithSummary(t.jobs, row.job, SummaryOf(row));
      assert RunShaped(t.runs[run]) && RunShaped(row);
      assert AfterComplete(t, run, node, report, at, authorized) == Tables(jobs, runs);
      forall j | j in jobs ensures Latest(jobs[j].last, runs, Reporters(runs, j)) {
        ReportersAfterEnding(t.runs, run, row, j);
        LatestCarries(t.jobs[j].last, t.runs, runs, Reporters(t.runs, j));
        OneMoreReport(t.jobs[j].last, runs, Reporters(t.runs, j), run);
      }
    }
  }

  // ---- Stale cleanup, one failed run after the other ----

  function ReportersAmong(runs: map<string, Run>, failed: seq<string>, j: string): set<string>
    requires forall k :: 0 <= k < |failed| ==> failed[k] in runs
  {
    set k | 0 <= k < |failed| && runs[failed[k]].job == j :: failed[k]
  }

  /** After any number of turns of the loop, each summary accounts for the failed runs handled so far. */
  lemma {:induction false} LoopSummarizes(jobs: map<string, Job>, runs: map<string, Run>, failed: seq<string>,
                                          j: string, before: set<string>)
    requires forall k :: 0 <= k < |failed| ==>
                           failed[k] in runs && runs[failed[k]].ending.Stale? && RunShaped(runs[failed[k]])
    requires j in jobs && Latest(jobs[j].last, runs, before)
    ensures var after := SummarizedAll(jobs, runs, failed);
            j in after && Latest(after[j].last, runs, before + ReportersAmong(runs, failed, j))
    decreases |failed|
  {
    if failed == [] {
      assert before + ReportersAmong(runs, failed, j) == before;
    } else {
      var n := |failed| - 1;
      var rest, r := failed[..n], failed[n];
      LoopSummarizes(jobs, runs, rest, j, before);
      var handled := before + ReportersAmong(runs, rest, j);
      var mid := SummarizedAll(jobs, runs, rest);
      AmongSnoc(runs, rest, r, j);
      assert rest + [r] == failed;
      if runs[r].job == j {
        OneMoreReport(mid[j].last, runs, handled, r);
        assert before + ReportersAmong(runs, failed, j) == handled + {r};
      }
    }
  }

  lemma AmongSnoc(runs: map<string, Run>, rest: seq<string>, r: string, j: string)
    requires (forall k :: 0 <= k < |rest| ==> rest[k] in runs) && r in runs
    ensures ReportersAmong(runs, rest + [r], j) == if runs[r].job == j then ReportersAmong(runs, rest, j) + {r}
                                                   else ReportersAmong(runs, rest, j)
  {
    var all := rest + [r];
    forall x | x in ReportersAmong(runs, rest, j) ensures x in ReportersAmong(runs, all, j) {
      var k :| 0 <= k < |rest| && runs[rest[k]].job == j && rest[k] == x;
      assert all[k] == x;
    }
    if runs[r].job == j {
      assert all[|rest|] == r;
    }
  }

  lemma SweepShaped(t: Tables, threshold: Instant, now: Instant, failed: seq<string>)
    requires Shaped(t) && (forall k :: 0 <= k < |failed| ==> failed[k] in t.runs)
    ensures Shaped(AfterSweep(t, threshold, now, failed))
    ensures AfterSweep(t, threshold, now, failed).jobs.Keys == t.jobs.Keys
  {
    SweepKeepsJobs(t.jobs, SweptRuns(t.runs, threshold, now), failed);
  }

  lemma SweepKeepsJobs(jobs: map<string, Job>, runs: map<string, Run>, failed: seq<string>)
    requires forall k :: 0 <= k < |failed| ==> failed[k] in runs
    ensures SummarizedAll(jobs, runs, failed).Keys == jobs.Keys
  {}

  lemma SweepReporters(t: Tables, threshold: Instant, now: Instant, failed: seq<string>, j: string)
    requires Shaped(t) && ListsInterrupted(t, threshold, failed)
    ensures var runs := SweptRuns(t.runs, threshold, now);
            Reporters(runs, j) == Reporters(t.runs, j) + ReportersAmong(runs, failed, j)
  {
    var runs := SweptRuns(t.runs, threshold, now);
    forall r | r in Reporters(runs, j) ensures r in Reporters(t.runs, j) + ReportersAmong(runs, failed, j) {
      if Interrupted(t.runs[r], threshold) {
        assert r in failed;
        var k :| 0 <= k < |failed| && failed[k] == r;
        assert failed[k] in ReportersAmong(runs, failed, j);
      }
    }
    forall r | r in ReportersAmong(runs, failed, j) ensures r in Reporters(runs, j) {
      assert r in failed;
    }
  }

  lemma SweepSummarized(t: Tables, threshold: Instant, now: Instant, failed: seq<string>)
    requires Summarized(t) && ListsInterrupted(t, threshold, failed)
    ensures Summarized(AfterSweep(t, threshold, now, failed))
  {
    var after := AfterSweep(t, threshold, now, failed);
    SweepShaped(t, threshold, now, failed);
    forall j | j in after.jobs ensures Latest(after.jobs[j].last, after.runs, Reporters(after.runs, j)) {
      LatestCarries(t.jobs[j].last, t.runs, after.runs, Reporters(t.runs, j));
      LoopSummarizes(t.jobs, after.runs, failed, j, Reporters(t.runs, j));
      SweepReporters(t, threshold, now, failed, j);
    }
  }

  lemma ClaimSummarized(t: Tables, j: string, node: string, due: Instant, next: Instant, run: string, now: Instant,
                        authorized: bool)
    requires Summarized(t)
    ensures Summarized(AfterClaim(t, j, node, due, next, run, now, authorized))
  {
    if ClaimSucceeds(t, j, node, due, run, authorized) {
      var jobs := t.jobs[j := t.jobs[j].(nextRunAt := next, lastScheduledFor := Some(due))];
      JobsMoved(t, jobs);
      RowMoved(t.(jobs := jobs), run, NewRun(t, j, node, due, Schedule, now));
    }
  }

  lemma RescheduleSummarized(db: Db, next: Next, e: Event)
    requires Summarized(db.t) && Enabled(db, next, e) && !AboutRuns(e)
    ensures Summarized(Rescheduled(db, next, e))
  {
    if e.EndClaim? {
      var c := db.inflight[e.op];
      ClaimSummarized(db.t, c.job, c.node, c.due, c.next, e.run, db.now, e.authorized);
    } else {
      JobsMoved(db.t, Rescheduled(db, next, e).jobs);
    }
  }

  /** RunNow, Start, Skip and DispatchFailed write at most the row they name. */
  lemma SmallSummarized(db: Db, next: Next, e: Event)
    requires Summarized(db.t) && Enabled(db, next, e) && AboutRuns(e) && !e.Complete? && !e.Sweep?
    ensures Summarized(RunsMoved(db, next, e))
  {
    var after := RunsMoved(db, next, e);
    if after != db.t {
      if e.run in db.t.runs { assert RunShaped(db.t.runs[e.run]); }
      RowMoved(db.t, e.run, after.runs[e.run]);
    }
  }

  lemma SummarizedKept(db: Db, next: Next, e: Event)
    requires Summarized(db.t) && Enabled(db, next, e)
    ensures Summarized(Apply(db, next, e).t)
  {
    if e.Complete? {
      CompleteSummarized(db.t, e.run, e.node, e.report, e.at, e.authorized);
    } else if e.Sweep? {
      SweepSummarized(db.t, e.threshold, db.now, e.failed);
    } else if AboutRuns(e) {
      SmallSummarized(db, next, e);
    } else {
      RescheduleSummarized(db, next, e);
    }
  }

  /**
   In every reachable state a job's `lastRunAt` is the maximum of `finishedAt` over the runs finished by
   completeRun and `startedAt` over the runs failed as stale, null when there are none, and
   its status and error are those of a run attaining the maximum.
   */
  lemma {:induction false} SummaryIsLatestReport(next: Next, states: seq<Db>, events: seq<Event>)
    requires IsRun(next, states, events)
    ensures Summarized(states[|events|].t)
    decreases |events|
  {
    var n := |events|;
    if n > 0 {
      SummaryIsLatestReport(next, states[..n], events[..n - 1]);
      SummarizedKept(states[n - 1], next, events[n - 1]);
    }
  }
}
