/**
 Every interleaving of the scheduled-job operations. Claim, fast-forward and resume read the job
 row in one statement and write it in a later one; everything else is a single statement.
 */
module ScheduledJobProtocol {
  import opened Listing
  import opened ScheduledJobs

  /** What an operation carries from its read to its write. */
  datatype Inflight =
    | Claiming(job: string, node: string, due: Instant, next: Instant)
    | Advancing(job: string, node: string, due: Instant, next: Instant)
    | Resuming(job: string, next: Instant)

  datatype Occurrence = Occurrence(job: string, due: Instant)

  /** `claims` records the claimed occurrences in the order they were committed. */
  datatype Db = Db(now: Instant, t: Tables, inflight: map<nat, Inflight>, claims: seq<Occurrence>)

  datatype Event =
    | Tick(to: Instant)
    | Create(job: string, org: string, node: string, about: About, cron: string, zone: string)
    | Update(job: string, edit: Edit, isValid: bool)
    | SetStatus(job: string, status: JobStatus)
    | BeginClaim(op: nat, job: string, node: string)
    | EndClaim(op: nat, run: string, authorized: bool)
    | BeginAdvance(op: nat, job: string, node: string)
    | EndAdvance(op: nat, authorized: bool)
    | BeginResume(op: nat, job: string)
    | EndResume(op: nat)
    | Resume(job: string)
    | RunNow(job: string, run: string, node: string)
    | Start(run: string, node: string, at: Instant, authorized: bool)
    | Complete(run: string, node: string, report: Report, at: Instant, authorized: bool)
    | Skip(run: string, node: string, reason: string)
    | DispatchFailed(run: string, job: string, org: string)
    | Sweep(threshold: Instant, failed: seq<string>)

  function NextOf(db: Db, next: Next, j: string): Option<Instant>
    requires j in db.t.jobs
  {
    next(db.t.jobs[j].cron, db.t.jobs[j].zone, db.now)
  }

  ghost predicate Enabled(db: Db, next: Next, e: Event) {
    match e
    case Tick(to) => db.now <= to
    case Create(j, _, _, _, cron, zone) => j !in db.t.jobs && next(cron, zone, db.now).Some?
    case Update(_, _, _) => true
    case SetStatus(_, status) => !status.Active?
    case BeginClaim(op, j, node) =>
      && op !in db.inflight && j in db.t.jobs && db.t.jobs[j].node == node
      && db.t.jobs[j].nextRunAt <= db.now <= db.t.jobs[j].nextRunAt + DUE_GRACE_MS
      && NextOf(db, next, j).Some?
    case EndClaim(op, _, _) => op in db.inflight && db.inflight[op].Claiming?
    case BeginAdvance(op, j, node) =>
      && op !in db.inflight && j in db.t.jobs && db.t.jobs[j].node == node && db.t.jobs[j].status.Active?
      && db.t.jobs[j].nextRunAt <= db.now && NextOf(db, next, j).Some?
    case EndAdvance(op, _) => op in db.inflight && db.inflight[op].Advancing?
    case BeginResume(op, j) => op !in db.inflight && Visible(db.t, j) && NextOf(db, next, j).Some?
    case EndResume(op) => op in db.inflight && db.inflight[op].Resuming?
    case Resume(j) => Visible(db.t, j) && NextOf(db, next, j).Some?
    case RunNow(_, _, _) => true
    case Start(_, _, _, _) => true
    case Complete(_, _, report, _, _) => report.status.Succeeded? || report.status.Failed?
    case Skip(_, _, _) => true
    case DispatchFailed(_, _, _) => true
    case Sweep(threshold, failed) => ListsInterrupted(db.t, threshold, failed)
  }

  /** Statements that move a job's place in its schedule. */
  function Rescheduled(db: Db, next: Next, e: Event): Tables
    requires Enabled(db, next, e)
  {
    match e
    case Create(j, org, node, about, cron, zone) =>
      AfterCreate(db.t, j, org, node, about, cron, zone, next(cron, zone, db.now).value)
    case Update(j, edit, isValid) => AfterUpdate(db.t, j, edit, next, db.now, isValid)
    case SetStatus(j, status) => AfterStatus(db.t, j, status)
    case EndClaim(op, run, authorized) =>
      var c := db.inflight[op];
      AfterClaim(db.t, c.job, c.node, c.due, c.next, run, db.now, authorized)
    case EndAdvance(op, authorized) =>
      var c := db.inflight[op];
      AfterAdvance(db.t, c.job, c.node, c.due, c.next, authorized)
    case EndResume(op) => AfterResume(db.t, db.inflight[op].job, db.inflight[op].next)
    case Resume(j) => AfterResume(db.t, j, NextOf(db, next, j).value)
    case _ => db.t
  }

  predicate AboutRuns(e: Event) { e.RunNow? || e.Start? || e.Complete? || e.Skip? || e.DispatchFailed? || e.Sweep? }

  /** Statements that move runs, and the summaries of their jobs. */
  function RunsMoved(db: Db, next: Next, e: Event): Tables
    requires Enabled(db, next, e)
  {
    match e
    case RunNow(j, run, node) => AfterRunNow(db.t, j, run, node, db.now)
    case Start(run, node, at, authorized) => AfterStart(db.t, run, node, at, authorized)
    case Complete(run, node, report, at, authorized) => AfterComplete(db.t, run, node, report, at, authorized)
    case Skip(run, node, reason) => AfterSkip(db.t, run, node, reason, db.now)
    case DispatchFailed(run, j, org) => AfterDispatchFailed(db.t, run, j, org, db.now)
    case Sweep(threshold, failed) => AfterSweep(db.t, threshold, db.now, failed)
    case _ => db.t
  }

  function InflightAfter(db: Db, next: Next, e: Event): map<nat, Inflight>
    requires Enabled(db, next, e)
  {
    match e
    case BeginClaim(op, j, node) =>
      db.inflight[op := Claiming(j, node, db.t.jobs[j].nextRunAt, NextOf(db, next, j).value)]
    case BeginAdvance(op, j, node) =>
      db.inflight[op := Advancing(j, node, db.t.jobs[j].nextRunAt, NextOf(db, next, j).value)]
    case BeginResume(op, j) => db.inflight[op := Resuming(j, NextOf(db, next, j).value)]
    case EndClaim(op, _, _) => db.inflight - {op}
    case EndAdvance(op, _) => db.inflight - {op}
    case EndResume(op) => db.inflight - {op}
    case _ => db.inflight
  }

  predicate Claims(db: Db, e: Event) {
    && e.EndClaim? && e.op in db.inflight && db.inflight[e.op].Claiming?
    && ClaimSucceeds(db.t, db.inflight[e.op].job, db.inflight[e.op].node, db.inflight[e.op].due, e.run, e.authorized)
  }

  function Apply(db: Db, next: Next, e: Event): Db
    requires Enabled(db, next, e)
  {
    Db(if e.Tick? then e.to else db.now,
       if AboutRuns(e) then RunsMoved(db, next, e) else Rescheduled(db, next, e),
       InflightAfter(db, next, e),
       if Claims(db, e) then db.claims + [Occurrence(db.inflight[e.op].job, db.inflight[e.op].due)] else db.claims)
  }

  ghost predicate Init(db: Db) { db.t == Tables(map[], map[]) && db.inflight == map[] && db.claims == [] }

  ghost predicate IsRun(next: Next, states: seq<Db>, events: seq<Event>) {
    && |states| == |events| + 1 && Init(states[0])
    && forall k :: 0 <= k < |events| ==>
                     Enabled(states[k], next, events[k]) && states[k + 1] == Apply(states[k], next, events[k])
  }

  // ---- Exactly once, whatever interleaves ----

  ghost predicate OccurrencesDistinct(runs: map<string, Run>) {
    forall q, r :: q in runs && r in runs && q != r && runs[q].trigger.Schedule? && runs[r].trigger.Schedule? ==>
                     runs[q].job != runs[r].job || runs[q].scheduledFor != runs[r].scheduledFor
  }

  /** Scheduled runs and recorded claims are the same occurrences, each exactly once. */
  ghost predicate ClaimsRecorded(db: Db) {
    && (forall k :: 0 <= k < |db.claims| ==> Taken(db.t, db.claims[k].job, db.claims[k].due))
    && (forall r :: r in db.t.runs && db.t.runs[r].trigger.Schedule? ==>
                      Occurrence(db.t.runs[r].job, db.t.runs[r].scheduledFor) in db.claims)
    && (forall i, k :: 0 <= i < k < |db.claims| ==> db.claims[i] != db.claims[k])
  }

  ghost predicate ExactlyOnce(db: Db) { OccurrencesDistinct(db.t.runs) && ClaimsRecorded(db) }

  /** Run rows keep what a claim wrote into them. */
  ghost predicate SameOccurrences(before: map<string, Run>, after: map<string, Run>) {
    && before.Keys <= after.Keys
    && (forall r :: r in before ==> after[r].trigger == before[r].trigger && after[r].job == before[r].job
                                    && after[r].scheduledFor == before[r].scheduledFor)
    && (forall r :: r in after && r !in before ==> after[r].trigger.Manual?)
  }

  lemma ExactlyOnceCarries(db: Db, after: Db)
    requires ExactlyOnce(db) && SameOccurrences(db.t.runs, after.t.runs) && after.claims == db.claims
    ensures ExactlyOnce(after)
  {}

  lemma SweepOccurrences(runs: map<string, Run>, threshold: Instant, now: Instant)
    ensures SameOccurrences(runs, SweptRuns(runs, threshold, now))
  {}

  lemma RunsKeepOccurrences(db: Db, next: Next, e: Event)
    requires Enabled(db, next, e) && AboutRuns(e) && !e.Sweep?
    ensures SameOccurrences(db.t.runs, RunsMoved(db, next, e).runs)
  {}

  lemma StepOccurrences(db: Db, next: Next, e: Event)
    requires Enabled(db, next, e) && !Claims(db, e)
    ensures SameOccurrences(db.t.runs, Apply(db, next, e).t.runs)
  {
    if e.Sweep? {
      SweepOccurrences(db.t.runs, e.threshold, db.now);
    } else if AboutRuns(e) {
      RunsKeepOccurrences(db, next, e);
    } else {
      assert Rescheduled(db, next, e).runs == db.t.runs;
    }
  }

  lemma ClaimOnce(db: Db, next: Next, e: Event)
    requires ExactlyOnce(db) && Enabled(db, next, e) && Claims(db, e)
    ensures ExactlyOnce(Apply(db, next, e))
  {
    var c := db.inflight[e.op];
    var after := Apply(db, next, e);
    assert after.t.runs == db.t.runs[e.run := NewRun(db.t, c.job, c.node, c.due, Schedule, db.now)];
    forall k | 0 <= k < |after.claims| ensures Taken(after.t, after.claims[k].job, after.claims[k].due) {
      if k < |db.claims| {
        assert Taken(db.t, db.claims[k].job, db.claims[k].due);
        var r :| r in db.t.runs && db.t.runs[r].trigger.Schedule? && db.t.runs[r].job == db.claims[k].job
                 && db.t.runs[r].scheduledFor == db.claims[k].due;
        assert r in after.t.runs;
      } else {
        assert e.run in after.t.runs;
      }
    }
  }

  lemma ExactlyOnceKept(db: Db, next: Next, e: Event)
    requires ExactlyOnce(db) && Enabled(db, next, e)
    ensures ExactlyOnce(Apply(db, next, e))
  {
    if Claims(db, e) {
      ClaimOnce(db, next, e);
    } else {
      StepOccurrences(db, next, e);
      ExactlyOnceCarries(db, Apply(db, next, e));
    }
  }

  /** No occurrence of a job is claimed twice, over every interleaving, with resume's read and write apart. */
  lemma {:induction false} NoDoubleClaim(next: Next, states: seq<Db>, events: seq<Event>)
    requires IsRun(next, states, events)
    ensures ExactlyOnce(states[|events|])
    decreases |events|
  {
    var n := |events|;
    if n > 0 {
      NoDoubleClaim(next, states[..n], events[..n - 1]);
      ExactlyOnceKept(states[n - 1], next, events[n - 1]);
    }
  }
}
