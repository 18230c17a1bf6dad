/** What each committed statement does to the rows, column by column, at every step of every run. */
module ScheduledJobRows {
  import opened Listing
  import opened ScheduledJobs
  import opened ScheduledJobProtocol
  import opened ScheduledJobOrder

  // ---- Claims ----

  /** At every step: an occurrence is claimed if and only if the job row, as it is then, says so. */
  lemma ClaimedExactly(next: Next, states: seq<Db>, events: seq<Event>, k: nat)
    requires IsRun(next, states, events) && k < |events|
    ensures var db, e := states[k], events[k];
            states[k + 1].claims != db.claims <==>
            && e.EndClaim? && e.authorized && e.op in db.inflight && db.inflight[e.op].Claiming?
            && var c := db.inflight[e.op];
            && c.job in db.t.jobs && db.t.jobs[c.job].status == Active
            && db.t.jobs[c.job].node == c.node && db.t.jobs[c.job].nextRunAt == c.due
            && e.run !in db.t.runs
            && forall r :: r in db.t.runs && db.t.runs[r].job == c.job && db.t.runs[r].scheduledFor == c.due ==>
                             db.t.runs[r].trigger == Manual
  {
    var db, e := states[k], events[k];
    assert Enabled(db, next, e) && states[k + 1] == Apply(db, next, e);
    if Claims(db, e) { assert |states[k + 1].claims| == |db.claims| + 1; }
  }

  /** And then this is what it writes. */
  lemma ClaimWrites(next: Next, states: seq<Db>, events: seq<Event>, k: nat)
    requires IsRun(next, states, events) && k < |events| && states[k + 1].claims != states[k].claims
    ensures events[k].EndClaim? && events[k].op in states[k].inflight && states[k].inflight[events[k].op].Claiming?
    ensures var before, after, run, c := states[k].t, states[k + 1].t, events[k].run, states[k].inflight[events[k].op];
            && states[k + 1].claims == states[k].claims + [Occurrence(c.job, c.due)]
            && after.jobs.Keys == before.jobs.Keys && c.job in before.jobs
            && (forall j :: j in before.jobs && j != c.job ==> after.jobs[j] == before.jobs[j])
            && after.jobs[c.job].nextRunAt == c.next && after.jobs[c.job].lastScheduledFor == Some(c.due)
            && after.jobs[c.job] == before.jobs[c.job].(nextRunAt := c.next, lastScheduledFor := Some(c.due))
            && after.runs.Keys == before.runs.Keys + {run}
            && (forall r :: r in before.runs ==> after.runs[r] == before.runs[r])
            && var row := after.runs[run];
            && row.job == c.job && row.org == before.jobs[c.job].org && row.node == c.node && row.scheduledFor == c.due
            && row.trigger == Schedule && row.createdAt == states[k].now && row.startedAt == None
            && row.finishedAt == None && row.report == Report(Pending, None, None, None, None)
  {
    ClaimedExactly(next, states, events, k);
    assert Enabled(states[k], next, events[k]) && states[k + 1] == Apply(states[k], next, events[k]);
  }

  /** What a claim writes it has read, within a minute after the occurrence fell due. */
  lemma {:induction false} ClaimBegan(next: Next, states: seq<Db>, events: seq<Event>, k: nat, op: nat) returns (i: nat)
    requires IsRun(next, states, events) && k < |states| && op in states[k].inflight && states[k].inflight[op].Claiming?
    ensures var c := states[k].inflight[op];
            && i < k && events[i] == BeginClaim(op, c.job, c.node) && states[i].now <= states[k].now
            && c.job in states[i].t.jobs
            && var job := states[i].t.jobs[c.job];
            && job.node == c.node && job.nextRunAt == c.due && c.due <= states[i].now <= c.due + 60_000
            && next(job.cron, job.zone, states[i].now) == Some(c.next)
  {
    assert k > 0;
    var s, e := states[k - 1], events[k - 1];
    assert Enabled(s, next, e) && states[k] == Apply(s, next, e);
    if e.BeginClaim? && e.op == op { i := k - 1; } else { i := ClaimBegan(next, states, events, k - 1, op); }
  }

  /** The machine leaves nothing out: whatever the services can be asked for is a step, at any time. */
  lemma CallsAreSteps(db: Db, next: Next, op: nat, j: string, node: string)
    requires op !in db.inflight
    ensures forall to :: db.now <= to ==> Enabled(db, next, Tick(to))
    ensures forall edit, isValid :: Enabled(db, next, Update(j, edit, isValid))
    ensures forall run :: Enabled(db, next, RunNow(j, run, node))
    ensures forall run, at, authorized :: Enabled(db, next, Start(run, node, at, authorized))
    ensures forall run, report: Report, at, authorized ::
              report.status in {Succeeded, Failed} ==> Enabled(db, next, Complete(run, node, report, at, authorized))
    ensures forall run, reason :: Enabled(db, next, Skip(run, node, reason))
    ensures forall run, org :: Enabled(db, next, DispatchFailed(run, j, org))
    ensures j in db.t.jobs && next(db.t.jobs[j].cron, db.t.jobs[j].zone, db.now).Some? ==>
              var job := db.t.jobs[j];
              && (job.node == node && job.nextRunAt <= db.now <= job.nextRunAt + 60_000 ==>
                    Enabled(db, next, BeginClaim(op, j, node)))
              && (job.node == node && job.status == Active && job.nextRunAt <= db.now ==>
                    Enabled(db, next, BeginAdvance(op, j, node)))
              && (job.status != Deleted ==> Enabled(db, next, BeginResume(op, j)) && Enabled(db, next, Resume(j)))
  {}

  // ---- Fast-forward ----

  /** At every step: a fast-forward moves a job if and only if the row, as it is then, still shows what was read. */
  lemma AdvancedExactly(next: Next, states: seq<Db>, events: seq<Event>, k: nat)
    requires IsRun(next, states, events) && k < |events| && events[k].EndAdvance?
    ensures events[k].op in states[k].inflight && states[k].inflight[events[k].op].Advancing?
    ensures var before, after, c := states[k].t, states[k + 1].t, states[k].inflight[events[k].op];
            var holds := events[k].authorized && c.job in before.jobs && before.jobs[c.job].status == Active
                         && before.jobs[c.job].node == c.node && before.jobs[c.job].nextRunAt == c.due;
            after == if holds then before.(jobs := before.jobs[c.job := before.jobs[c.job].(nextRunAt := c.next)])
            else before
  {
    assert Enabled(states[k], next, events[k]) && states[k + 1] == Apply(states[k], next, events[k]);
  }

  lemma {:induction false} AdvanceBegan(next: Next, states: seq<Db>, events: seq<Event>, k: nat,
                                        op: nat) returns (i: nat)
    requires IsRun(next, states, events) && k < |states| && op in states[k].inflight
    requires states[k].inflight[op].Advancing?
    ensures var c := states[k].inflight[op];
            && i < k && events[i] == BeginAdvance(op, c.job, c.node) && states[i].now <= states[k].now
            && c.job in states[i].t.jobs
            && var job := states[i].t.jobs[c.job];
            && job.node == c.node && job.status == Active && job.nextRunAt == c.due && c.due <= states[i].now
            && next(job.cron, job.zone, states[i].now) == Some(c.next)
  {
    assert k > 0;
    var s, e := states[k - 1], events[k - 1];
    assert Enabled(s, next, e) && states[k] == Apply(s, next, e);
    if e.BeginAdvance? && e.op == op { i := k - 1; } else { i := AdvanceBegan(next, states, events, k - 1, op); }
  }

  // ---- Jobs ----

  /** A given field is stored; a field that is not given stays. */
  predicate Takes<T(==)>(given: Option<T>, before: T, after: T) {
    if given.Some? then after == given.value else after == before
  }

  /** What an accepted update leaves in the row. */
  ghost predicate Updated(before: Job, after: Job, edit: Edit, next: Next, now: Instant) {
    && Takes(edit.node, before.node, after.node) && Takes(edit.cron, before.cron, after.cron)
    && Takes(edit.zone, before.zone, after.zone) && Takes(edit.name, before.about.name, after.about.name)
    && Takes(edit.agent, before.about.agent, after.about.agent)
    && Takes(edit.prompt, before.about.prompt, after.about.prompt)
    && Takes(edit.model, before.about.model, after.about.model)
    && Takes(edit.command, before.about.command, after.about.command)
    && (if edit.cron.Some? || edit.zone.Some? || before.status == Active
        then next(after.cron, after.zone, now) == Some(after.nextRunAt) else after.nextRunAt == before.nextRunAt)
    && after.org == before.org && after.status == before.status && after.last == before.last
    && after.lastScheduledFor == before.lastScheduledFor
  }

  /** An update is refused for a missing or deleted job, for an invalid schedule, and when no next run exists. */
  lemma UpdateWrites(next: Next, states: seq<Db>, events: seq<Event>, k: nat)
    requires IsRun(next, states, events) && k < |events| && events[k].Update?
    ensures var before, after, e := states[k].t, states[k + 1].t, events[k];
            && after.runs == before.runs && after.jobs.Keys == before.jobs.Keys
            && (forall j :: j in before.jobs && j != e.job ==> after.jobs[j] == before.jobs[j])
            && (e.job in before.jobs && before.jobs[e.job].status != Deleted && e.isValid
                && (exists row :: Updated(before.jobs[e.job], row, e.edit, next, states[k].now)) ==>
                  Updated(before.jobs[e.job], after.jobs[e.job], e.edit, next, states[k].now))
            && (e.job in before.jobs
                && (before.jobs[e.job].status == Deleted || !e.isValid
                    || !(exists row :: Updated(before.jobs[e.job], row, e.edit, next, states[k].now))) ==>
                  after.jobs[e.job] == before.jobs[e.job])
  {
    var db, e := states[k], events[k];
    assert Enabled(db, next, e) && states[k + 1] == Apply(db, next, e);
    if e.job in db.t.jobs {
      UpdateOne(db.t.jobs[e.job], e.edit, next, db.now);
    }
  }

  lemma UpdateOne(job: Job, edit: Edit, next: Next, now: Instant)
    ensures var at := EditedNext(job, edit, next, now);
            if at.Some? then Updated(job, EditedRow(job, edit, at.value), edit, next, now)
            else !exists row :: Updated(job, row, edit, next, now)
  {}

  /** Creating a job leaves one new active row; it has never run. */
  lemma CreateWrites(next: Next, states: seq<Db>, events: seq<Event>, k: nat)
    requires IsRun(next, states, events) && k < |events| && events[k].Create?
    ensures var before, after, e := states[k].t, states[k + 1].t, events[k];
            && after.runs == before.runs && e.job !in before.jobs && after.jobs.Keys == before.jobs.Keys + {e.job}
            && (forall j :: j in before.jobs ==> after.jobs[j] == before.jobs[j])
            && var row := after.jobs[e.job];
            && row.org == e.org && row.node == e.node && row.about == e.about && row.cron == e.cron
            && row.zone == e.zone && row.status == Active && next(e.cron, e.zone, states[k].now) == Some(row.nextRunAt)
            && row.lastScheduledFor == None && row.last == None
  {
    assert Enabled(states[k], next, events[k]) && states[k + 1] == Apply(states[k], next, events[k]);
  }

  /** The job whose status a step writes, with the status: pause, disable, delete and both forms of resume. */
  function StatusWrite(db: Db, e: Event): Option<(string, JobStatus)> {
    match e
    case SetStatus(j, status) => Some((j, status))
    case Resume(j) => Some((j, Active))
    case EndResume(op) => if op in db.inflight then Some((db.inflight[op].job, Active)) else None
    case _ => None
  }

  /** Which steps may change which columns of a job. */
  lemma ColumnOwners(next: Next, states: seq<Db>, events: seq<Event>, k: nat, j: string)
    requires IsRun(next, states, events) && k < |events| && j in states[k].t.jobs
    ensures j in states[k + 1].t.jobs
    ensures var before, after, e := states[k].t.jobs[j], states[k + 1].t.jobs[j], events[k];
            var write := StatusWrite(states[k], e);
            && after.org == before.org
            && ((e.Update? && e.job == j)
                || (after.node == before.node && after.about == before.about && after.cron == before.cron
                    && after.zone == before.zone))
            && (if write.Some? && write.value.0 == j then after.status == write.value.1
                else after.status == before.status)
            && (after.lastScheduledFor != before.lastScheduledFor ==>
                  e.EndClaim? && after.lastScheduledFor == Some(before.nextRunAt))
            && (after.nextRunAt != before.nextRunAt ==>
                  e.Update? || e.EndClaim? || e.EndAdvance? || e.EndResume? || e.Resume?)
            && (after.last != before.last ==> e.Complete? || e.Sweep?)
  {
    var db, e := states[k], events[k];
    assert Enabled(db, next, e) && states[k + 1] == Apply(db, next, e);
    if e.Sweep? { SweepColumns(db.t.jobs, SweptRuns(db.t.runs, e.threshold, db.now), e.failed, j); }
  }

  lemma {:induction false} SweepColumns(jobs: map<string, Job>, runs: map<string, Run>, failed: seq<string>, j: string)
    requires (forall k :: 0 <= k < |failed| ==> failed[k] in runs) && j in jobs
    ensures j in SummarizedAll(jobs, runs, failed)
    ensures SummarizedAll(jobs, runs, failed)[j] == jobs[j].(last := SummarizedAll(jobs, runs, failed)[j].last)
    decreases |failed|
  {
    if failed != [] { SweepColumns(jobs, runs, failed[..|failed| - 1], j); }
  }

  /** Resuming makes a job active and moves it to its next run after the instant of the read. */
  lemma ResumeWrites(next: Next, states: seq<Db>, events: seq<Event>, k: nat)
    requires IsRun(next, states, events) && k < |events| && events[k].Resume?
    ensures var before, after, j := states[k].t, states[k + 1].t, events[k].job;
            && j in before.jobs && before.jobs[j].status != Deleted && after.runs == before.runs
            && j in after.jobs && after.jobs[j].status == Active
            && next(before.jobs[j].cron, before.jobs[j].zone, states[k].now) == Some(after.jobs[j].nextRunAt)
            && forall i :: i in before.jobs && i != j ==> i in after.jobs && after.jobs[i] == before.jobs[i]
  {
    assert Enabled(states[k], next, events[k]) && states[k + 1] == Apply(states[k], next, events[k]);
  }

  /** Over any stretch in which nothing writes its status, a job keeps it; so a deleted job is not claimed. */
  lemma {:induction false} StatusStays(next: Next, states: seq<Db>, events: seq<Event>, i: nat, k: nat, j: string)
    requires IsRun(next, states, events) && i <= k < |states| && j in states[i].t.jobs
    requires forall m :: i <= m < k ==> StatusWrite(states[m], events[m]).None?
                                        || StatusWrite(states[m], events[m]).value.0 != j
    ensures j in states[k].t.jobs && states[k].t.jobs[j].status == states[i].t.jobs[j].status
    ensures states[i].t.jobs[j].status != Active ==>
              forall due :: Occurrence(j, due) in states[k].claims ==> Occurrence(j, due) in states[i].claims
    decreases k - i
  {
    if i < k {
      StatusStays(next, states, events, i, k - 1, j);
      ColumnOwners(next, states, events, k - 1, j);
      if states[k].claims != states[k - 1].claims {
        ClaimedExactly(next, states, events, k - 1);
        ClaimWrites(next, states, events, k - 1);
      }
    }
  }

  // ---- A deleted job can come back ----

  predicate Revives(db: Db, e: Event, j: string) {
    StatusWrite(db, e).Some? && StatusWrite(db, e).value.0 == j && StatusWrite(db, e).value.1 != Deleted
  }

  lemma {:induction false} DeletedStays(next: Next, states: seq<Db>, events: seq<Event>, i: nat, k: nat, j: string)
    requires IsRun(next, states, events) && i <= k < |states| && j in states[i].t.jobs
    requires states[i].t.jobs[j].status == Deleted && forall m :: i <= m < k ==> !Revives(states[m], events[m], j)
    ensures j in states[k].t.jobs && states[k].t.jobs[j].status == Deleted
    decreases k - i
  {
    if i < k {
      DeletedStays(next, states, events, i, k - 1, j);
      ColumnOwners(next, states, events, k - 1, j);
    }
  }

  /**
   Pause, disable and resume write without looking at the status again. Over every run, a deleted job is seen with
   another status if and only if one of these writes lands after the deletion.
   */
  lemma RevivedExactly(next: Next, states: seq<Db>, events: seq<Event>, i: nat, k: nat, j: string)
    requires IsRun(next, states, events) && i <= k < |states| && j in states[i].t.jobs
    requires states[i].t.jobs[j].status == Deleted
    ensures (exists m :: i < m <= k && j in states[m].t.jobs && states[m].t.jobs[j].status != Deleted) <==>
            (exists m :: i <= m < k && Revives(states[m], events[m], j))
  {
    if m :| i <= m < k && Revives(states[m], events[m], j) {
      JobsRemain(next, states, events, i, m, j);
      ColumnOwners(next, states, events, m, j);
      assert states[m + 1].t.jobs[j].status != Deleted;
    }
    if m :| i < m <= k && j in states[m].t.jobs && states[m].t.jobs[j].status != Deleted {
      if forall n :: i <= n < m ==> !Revives(states[n], events[n], j) { DeletedStays(next, states, events, i, m, j); }
    }
  }

  lemma {:induction false} JobsRemain(next: Next, states: seq<Db>, events: seq<Event>, i: nat, k: nat, j: string)
    requires IsRun(next, states, events) && i <= k < |states| && j in states[i].t.jobs
    ensures j in states[k].t.jobs
    decreases k - i
  {
    if i < k {
      JobsRemain(next, states, events, i, k - 1, j);
      ColumnOwners(next, states, events, k - 1, j);
    }
  }

  const REVIVING := [
    Create("job", "org", "node", EXAMPLE_ABOUT, "* * * * *", "UTC"), BeginResume(0, "job"), SetStatus("job", Deleted),
    EndResume(0), Tick(60_000), BeginClaim(1, "job", "node"), EndClaim(1, "run", true)]

  function Reviving(k: nat): Db {
    var there := Tables(map["job" := EXAMPLE_JOB], map[]);
    var gone := Tables(map["job" := EXAMPLE_JOB.(status := Deleted)], map[]);
    var claimed := EXAMPLE_JOB.(nextRunAt := 120_000, lastScheduledFor := Some(60_000));
    var resuming, claiming := Resuming("job", 60_000), Claiming("job", "node", 60_000, 120_000);
    match k
    case 0 => Db(0, Tables(map[], map[]), map[], [])
    case 1 => Db(0, there, map[], [])
    case 2 => Db(0, there, map[0 := resuming], [])
    case 3 => Db(0, gone, map[0 := resuming], [])
    case 4 => Db(0, there, map[], [])
    case 5 => Db(60_000, there, map[], [])
    case 6 => Db(60_000, there, map[1 := claiming], [])
    case _ => Db(60_000, Tables(map["job" := claimed], map["run" := EXAMPLE_RUN]), map[], [Occurrence("job", 60_000)])
  }

  lemma RevivingStep(k: nat)
    requires k < |REVIVING|
    ensures Leads(Reviving(k), REVIVING[k], Reviving(k + 1))
  {
    if k == 3 {
      RevivingWrite();
    } else if k == 5 {
      RevivingRead();
    } else if k == 6 {
      RevivingClaim();
    }
  }

  lemma RevivingWrite()
    ensures Leads(Reviving(3), EndResume(0), Reviving(4))
  {
    assert Reviving(3).inflight - {0} == map[];
  }

  lemma RevivingRead()
    ensures Leads(Reviving(5), BeginClaim(1, "job", "node"), Reviving(6))
  {
    assert NextOf(Reviving(5), EveryMinute, "job") == Some(120_000);
  }

  lemma RevivingClaim()
    ensures Leads(Reviving(6), EndClaim(1, "run", true), Reviving(7))
  {
    assert Reviving(6).inflight - {1} == map[];
  }

  /** A resume reads, the job is deleted, and the late write makes it active: its next occurrence is claimed. */
  lemma DeletedJobIsClaimed() returns (states: seq<Db>)
    ensures IsRun(EveryMinute, states, REVIVING)
    ensures "job" in states[3].t.jobs && states[3].t.jobs["job"].status == Deleted && states[3].claims == []
    ensures states[|REVIVING|].claims == [Occurrence("job", 60_000)]
  {
    states := seq(|REVIVING| + 1, (k: nat) => Reviving(k));
    forall k | 0 <= k < |REVIVING| ensures Leads(states[k], REVIVING[k], states[k + 1]) { RevivingStep(k); }
  }

  // ---- Runs ----

  /** A manual run is inserted for an existing job, now, whatever the job's status. */
  lemma RunNowWrites(next: Next, states: seq<Db>, events: seq<Event>, k: nat)
    requires IsRun(next, states, events) && k < |events| && events[k].RunNow?
    ensures var before, after, e := states[k].t, states[k + 1].t, events[k];
            && after.jobs == before.jobs
            && (forall r :: r in before.runs ==> r in after.runs && after.runs[r] == before.runs[r])
            && (after.runs != before.runs <==> e.job in before.jobs && e.run !in before.runs)
            && (after.runs != before.runs ==>
                  && after.runs.Keys == before.runs.Keys + {e.run}
                  && var row := after.runs[e.run];
                  && row.job == e.job && row.org == before.jobs[e.job].org && row.node == e.node
                  && row.scheduledFor == states[k].now && row.createdAt == states[k].now && row.trigger == Manual
                  && row.startedAt == None && row.finishedAt == None
                  && row.report == Report(Pending, None, None, None, None))
  {
    assert Enabled(states[k], next, events[k]) && states[k + 1] == Apply(states[k], next, events[k]);
  }

  /** No other row is written, and no job. */
  ghost predicate OnlyRow(before: Tables, after: Tables, run: string, row: Run) {
    && after.jobs == before.jobs && after.runs.Keys == before.runs.Keys && run in before.runs && after.runs[run] == row
    && forall r :: r in before.runs && r != run ==> after.runs[r] == before.runs[r]
  }

  /**
   A run starts if and only if it is pending, belongs to the node and was triggered by hand or has an active parent on
   that node; the reply says whether it started now, was already running, or cannot start.
   */
  lemma StartedExactly(next: Next, states: seq<Db>, events: seq<Event>, k: nat)
    requires IsRun(next, states, events) && k < |events| && events[k].Start?
    ensures var before, after, e := states[k].t, states[k + 1].t, events[k];
            var reply := StartReplyOf(before, e.run, e.node, e.authorized);
            var isMine := e.authorized && e.run in before.runs && before.runs[e.run].node == e.node;
            && (reply == Started <==>
                && isMine && before.runs[e.run].report.status == Pending
                && var j := before.runs[e.run].job;
                before.runs[e.run].trigger == Manual
                || (j in before.jobs && before.jobs[j].node == e.node && before.jobs[j].status == Active))
            && (reply == AlreadyRunning <==> isMine && before.runs[e.run].report.status == Running)
            && (if reply == Started
                then
                  var row := before.runs[e.run];
                  OnlyRow(before, after, e.run, row.(startedAt := Some(e.at), report := row.report.(status := Running)))
                else after == before)
  {
    assert Enabled(states[k], next, events[k]) && states[k + 1] == Apply(states[k], next, events[k]);
  }

  /** A completion ends a run if and only if it is pending or running and belongs to the node. */
  lemma CompletedExactly(next: Next, states: seq<Db>, events: seq<Event>, k: nat)
    requires IsRun(next, states, events) && k < |events| && events[k].Complete?
    ensures var before, after, e := states[k].t, states[k + 1].t, events[k];
            var reply := CompleteReplyOf(before, e.run, e.node, e.report, e.authorized);
            var isMine := e.authorized && e.run in before.runs && before.runs[e.run].node == e.node;
            var isOpen := isMine && before.runs[e.run].report.status in {Pending, Running};
            && (reply == Accepted <==> isOpen || (isMine && before.runs[e.run].report == e.report))
            && (reply == Rejected <==> isMine && reply != Accepted && before.runs[e.run].trigger == Schedule)
            && (isOpen ==>
                  && after.runs.Keys == before.runs.Keys
                  && (forall r :: r in before.runs && r != e.run ==> after.runs[r] == before.runs[r])
                  && after.runs[e.run].finishedAt == Some(e.at) && after.runs[e.run].report == e.report
                  && after.runs[e.run] == before.runs[e.run].(finishedAt := Some(e.at), report := e.report,
                                          ending := Completed))
            && (!isOpen ==> after == before)
  {
    assert Enabled(states[k], next, events[k]) && states[k + 1] == Apply(states[k], next, events[k]);
  }

  /**
   A completion that ends a run writes its job's summary unless that is of a later instant; at the same instant the
   later report wins. The error columns are those of a failed run, else null.
   */
  lemma CompletionReports(next: Next, states: seq<Db>, events: seq<Event>, k: nat)
    requires IsRun(next, states, events) && k < |events| && events[k].Complete?
    requires events[k].run in states[k].t.runs && states[k + 1].t.runs != states[k].t.runs
    ensures var before, after, e := states[k].t, states[k + 1].t, events[k];
            var j := before.runs[e.run].job;
            && after.jobs.Keys == before.jobs.Keys
            && (forall i :: i in before.jobs && i != j ==> after.jobs[i] == before.jobs[i])
            && (j in before.jobs && before.jobs[j].last.Some? && e.at < before.jobs[j].last.value.at ==>
                  after.jobs[j] == before.jobs[j])
            && (j in before.jobs && (before.jobs[j].last.None? || before.jobs[j].last.value.at <= e.at) ==>
                  && after.jobs[j].last.Some?
                  && var told := after.jobs[j].last.value;
                  && told.at == e.at && told.status == e.report.status
                  && (e.report.status == Failed ==> told.code == e.report.code && told.message == e.report.message)
                  && (e.report.status == Succeeded ==> told.code == None && told.message == None))
  {
    assert Enabled(states[k], next, events[k]) && states[k + 1] == Apply(states[k], next, events[k]);
  }

  /** `after` is `before` ended by something else than its own completion; what it reported otherwise stays. */
  ghost predicate Cut(before: Run, after: Run, status: RunStatus, code: string, message: string, at: Instant) {
    && after.report.status == status && after.report.code == Some(code) && after.report.message == Some(message)
    && after.report.response == before.report.response && after.report.details == before.report.details
    && after.finishedAt == Some(at) && after.startedAt == before.startedAt && after.createdAt == before.createdAt
    && after.job == before.job && after.org == before.org && after.node == before.node
    && after.scheduledFor == before.scheduledFor && after.trigger == before.trigger
  }

  /** An offline skip ends a pending run of the node as skipped, a failed dispatch a pending manual run as failed. */
  lemma CutShort(next: Next, states: seq<Db>, events: seq<Event>, k: nat)
    requires IsRun(next, states, events) && k < |events| && (events[k].Skip? || events[k].DispatchFailed?)
    ensures var before, after, e := states[k].t, states[k + 1].t, events[k];
            var isOpen :=
              && e.run in before.runs && before.runs[e.run].report.status == Pending
              && if e.Skip? then before.runs[e.run].node == e.node
                 else && before.runs[e.run].job == e.job && before.runs[e.run].org == e.org
                      && before.runs[e.run].trigger == Manual;
            && (!isOpen ==> after == before)
            && (isOpen ==> e.run in after.runs && OnlyRow(before, after, e.run, after.runs[e.run]))
            && (isOpen && e.Skip? ==>
                  Cut(before.runs[e.run], after.runs[e.run], SkippedOffline, "NODE_OFFLINE", e.reason, states[k].now))
            && (isOpen && e.DispatchFailed? ==>
                  Cut(before.runs[e.run], after.runs[e.run], Failed, "QUEUE_DISPATCH_FAILED",
                      "Scheduled job run could not be dispatched to the queue", states[k].now))
  {
    assert Enabled(states[k], next, events[k]) && states[k + 1] == Apply(states[k], next, events[k]);
  }

  /**
   Cleanup ends a pending run created before the threshold as skipped and a running one started before it as failed,
   and touches no other run.
   */
  lemma CleanupWrites(next: Next, states: seq<Db>, events: seq<Event>, k: nat, r: string)
    requires IsRun(next, states, events) && k < |events| && events[k].Sweep? && r in states[k].t.runs
    ensures states[k + 1].t.runs.Keys == states[k].t.runs.Keys
    ensures var before, after, e := states[k].t.runs[r], states[k + 1].t.runs[r], events[k];
            if before.report.status == Pending && before.createdAt < e.threshold then
              Cut(before, after, SkippedOffline, "DAEMON_INTERRUPTED", "Daemon interrupted before the run started",
                  states[k].now)
            else if before.report.status == Running && before.startedAt.Some? && before.startedAt.value < e.threshold
            then
              Cut(before, after, Failed, "DAEMON_INTERRUPTED", "Daemon interrupted while the run was executing",
                  states[k].now)
            else after == before
  {
    assert Enabled(states[k], next, events[k]) && states[k + 1] == Apply(states[k], next, events[k]);
  }

  // ---- What the columns of a run say, in every reachable state ----

  ghost predicate RunFits(jobs: map<string, Job>, r: Run, now: Instant) {
    && r.job in jobs && r.org == jobs[r.job].org && r.scheduledFor <= r.createdAt <= now
    && (match r.report.status
        case Pending =>
          r.startedAt == None && r.finishedAt == None && r.report == Report(Pending, None, None, None, None)
        case Running => r.startedAt.Some? && r.finishedAt == None && r.report == Report(Running, None, None, None, None)
        case Succeeded => r.finishedAt.Some?
        case Failed => r.finishedAt.Some?
        case SkippedOffline => r.startedAt == None && r.finishedAt.Some? && r.report.code.Some?)
  }

  ghost predicate AllFit(db: Db) {
    forall r :: r in db.t.runs ==> RunFits(db.t.jobs, db.t.runs[r], db.now)
  }

  lemma FitLater(before: map<string, Job>, after: map<string, Job>, r: Run, now: Instant, later: Instant)
    requires RunFits(before, r, now) && now <= later && before.Keys <= after.Keys
    requires forall j :: j in before ==> after[j].org == before[j].org
    ensures RunFits(after, r, later)
  {}

  lemma StepFits(next: Next, states: seq<Db>, events: seq<Event>, k: nat, r: string)
    requires IsRun(next, states, events) && k < |events| && AllFit(states[k]) && r in states[k + 1].t.runs
    ensures RunFits(states[k + 1].t.jobs, states[k + 1].t.runs[r], states[k + 1].now)
  {
    var db, e, after := states[k], events[k], states[k + 1];
    assert Enabled(db, next, e) && after == Apply(db, next, e);
    forall j | j in db.t.jobs ensures j in after.t.jobs && after.t.jobs[j].org == db.t.jobs[j].org {
      ColumnOwners(next, states, events, k, j);
    }
    if r in db.t.runs {
      assert RunFits(db.t.jobs, db.t.runs[r], db.now);
      RowFits(next, states, events, k, r);
      FitLater(db.t.jobs, after.t.jobs, after.t.runs[r], db.now, after.now);
    } else if e.EndClaim? {
      assert after.claims != db.claims;
      ClaimWrites(next, states, events, k);
      var i := ClaimBegan(next, states, events, k, e.op);
    } else {
      RunNowWrites(next, states, events, k);
    }
  }

  lemma RowFits(next: Next, states: seq<Db>, events: seq<Event>, k: nat, r: string)
    requires IsRun(next, states, events) && k < |events| && r in states[k].t.runs
    requires RunFits(states[k].t.jobs, states[k].t.runs[r], states[k].now)
    ensures r in states[k + 1].t.runs
    ensures RunFits(states[k].t.jobs, states[k + 1].t.runs[r], states[k].now)
  {
    var db, e := states[k], events[k];
    assert Enabled(db, next, e) && states[k + 1] == Apply(db, next, e);
    if e.Start? {
      StartedExactly(next, states, events, k);
    } else if e.Complete? {
      CompletedExactly(next, states, events, k);
    } else if e.Skip? || e.DispatchFailed? {
      CutShort(next, states, events, k);
    } else if e.Sweep? {
      CleanupWrites(next, states, events, k, r);
    }
  }

  /** In every reachable state the columns of every run fit its status and its trigger. */
  lemma {:induction false} ReachableRuns(next: Next, states: seq<Db>, events: seq<Event>, n: nat)
    requires IsRun(next, states, events) && n < |states|
    ensures AllFit(states[n])
  {
    if n > 0 {
      ReachableRuns(next, states, events, n - 1);
      forall r | r in states[n].t.runs ensures RunFits(states[n].t.jobs, states[n].t.runs[r], states[n].now) {
        StepFits(next, states, events, n - 1, r);
      }
    }
  }
}
