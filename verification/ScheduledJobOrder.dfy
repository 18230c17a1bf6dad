/** Order of the claimed occurrences when resume reads and writes in one step, and what is lost when it does not. */
module ScheduledJobOrder {
  import opened Listing
  import opened ScheduledJobs
  import opened ScheduledJobProtocol

  /** The last claimed occurrence lies before the next one and not in the future. */
  ghost predicate JobOrdered(job: Job, now: Instant) {
    job.lastScheduledFor.Some? ==> job.lastScheduledFor.value < job.nextRunAt && job.lastScheduledFor.value <= now
  }

  ghost predicate Reached(jobs: map<string, Job>, o: Occurrence) {
    o.job in jobs && jobs[o.job].lastScheduledFor.Some? && o.due <= jobs[o.job].lastScheduledFor.value
  }

  /** Later claims of one job are claims of later instants. */
  ghost predicate Increasing(claims: seq<Occurrence>) {
    forall i, k :: 0 <= i < k < |claims| && claims[i].job == claims[k].job ==> claims[i].due < claims[k].due
  }

  ghost predicate Carried(c: Inflight, now: Instant) {
    match c
    case Claiming(_, _, due, next) => due <= now && due < next
    case Advancing(_, _, due, next) => due < next
    case Resuming(_, _) => true
  }

  ghost predicate Ordered(db: Db) {
    && (forall j :: j in db.t.jobs ==> JobOrdered(db.t.jobs[j], db.now))
    && (forall k :: 0 <= k < |db.claims| ==> Reached(db.t.jobs, db.claims[k]))
    && Increasing(db.claims)
    && (forall op :: op in db.inflight ==> Carried(db.inflight[op], db.now))
  }

  /** Jobs stay, and the last claimed occurrence of a job never moves back. */
  ghost predicate ReachedStays(before: map<string, Job>, after: map<string, Job>) {
    && before.Keys <= after.Keys
    && forall j :: j in before && before[j].lastScheduledFor.Some? ==>
                     after[j].lastScheduledFor.Some?
                     && before[j].lastScheduledFor.value <= after[j].lastScheduledFor.value
  }

  lemma SummariesOnly(jobs: map<string, Job>, runs: map<string, Run>, failed: seq<string>)
    requires forall k :: 0 <= k < |failed| ==> failed[k] in runs
    ensures SummarizedAll(jobs, runs, failed).Keys == jobs.Keys
    ensures forall j :: j in jobs ==> SummarizedAll(jobs, runs, failed)[j].(last := jobs[j].last) == jobs[j]
  {}

  lemma RunsLeaveSchedules(db: Db, next: Next, e: Event)
    requires Enabled(db, next, e) && AboutRuns(e)
    ensures RunsMoved(db, next, e).jobs.Keys == db.t.jobs.Keys
    ensures forall j :: j in db.t.jobs ==> RunsMoved(db, next, e).jobs[j].(last := db.t.jobs[j].last) == db.t.jobs[j]
  {
    if e.Sweep? { SummariesOnly(db.t.jobs, SweptRuns(db.t.runs, e.threshold, db.now), e.failed); }
  }

  lemma RescheduleOrdered(db: Db, next: Next, e: Event)
    requires Ordered(db) && Enabled(db, next, e) && !AboutRuns(e) && !e.EndResume? && StrictlyLater(next)
    ensures var jobs := Rescheduled(db, next, e).jobs;
            ReachedStays(db.t.jobs, jobs) && forall j :: j in jobs ==> JobOrdered(jobs[j], Apply(db, next, e).now)
  {
    var jobs := Rescheduled(db, next, e).jobs;
    if e.EndClaim? || e.EndAdvance? {
      var c := db.inflight[e.op];
      assert Carried(c, db.now);
      if c.job in db.t.jobs { assert JobOrdered(db.t.jobs[c.job], db.now); }
    }
    forall j | j in jobs ensures JobOrdered(jobs[j], Apply(db, next, e).now) {
      if j in db.t.jobs { assert JobOrdered(db.t.jobs[j], db.now); }
    }
  }

  lemma InflightCarried(db: Db, next: Next, e: Event)
    requires Ordered(db) && Enabled(db, next, e) && StrictlyLater(next)
    ensures forall op :: op in InflightAfter(db, next, e) ==>
                           Carried(InflightAfter(db, next, e)[op], Apply(db, next, e).now)
  {}

  lemma ClaimsOrdered(db: Db, next: Next, e: Event)
    requires Ordered(db) && Enabled(db, next, e) && ReachedStays(db.t.jobs, Apply(db, next, e).t.jobs)
    ensures Increasing(Apply(db, next, e).claims)
    ensures forall k :: 0 <= k < |Apply(db, next, e).claims| ==>
                          Reached(Apply(db, next, e).t.jobs, Apply(db, next, e).claims[k])
  {}

  lemma OrderedKept(db: Db, next: Next, e: Event)
    requires Ordered(db) && Enabled(db, next, e) && !e.EndResume? && StrictlyLater(next)
    ensures Ordered(Apply(db, next, e))
  {
    var after := Apply(db, next, e);
    if AboutRuns(e) {
      RunsLeaveSchedules(db, next, e);
      forall j | j in after.t.jobs ensures JobOrdered(after.t.jobs[j], after.now) {
        assert JobOrdered(db.t.jobs[j], db.now);
      }
    } else {
      RescheduleOrdered(db, next, e);
    }
    InflightCarried(db, next, e);
    ClaimsOrdered(db, next, e);
  }

  /**
   With an atomic resume and a clock that does not go back, `lastScheduledFor < nextRunAt` holds for
   every job in every reachable state and the claimed instants of each job strictly increase.
   */
  lemma {:induction false} ClaimsMoveForward(next: Next, states: seq<Db>, events: seq<Event>)
    requires IsRun(next, states, events) && StrictlyLater(next)
    requires forall k :: 0 <= k < |events| ==> !events[k].EndResume?
    ensures Ordered(states[|events|])
    decreases |events|
  {
    var n := |events|;
    if n > 0 {
      ClaimsMoveForward(next, states[..n], events[..n - 1]);
      OrderedKept(states[n - 1], next, events[n - 1]);
    }
  }

  /** So a claim that passes its guard is never refused by the unique index. */
  lemma IndexNeverRefuses(next: Next, states: seq<Db>, events: seq<Event>, j: string, node: string, due: Instant)
    requires IsRun(next, states, events) && StrictlyLater(next)
    requires forall k :: 0 <= k < |events| ==> !events[k].EndResume?
    requires Claimable(states[|events|].t, j, node, due)
    ensures !Taken(states[|events|].t, j, due)
  {
    ClaimsMoveForward(next, states, events);
    NoDoubleClaim(next, states, events);
    var db := states[|events|];
    assert JobOrdered(db.t.jobs[j], db.now);
    forall k | 0 <= k < |db.claims| && db.claims[k].job == j ensures db.claims[k].due < due {
      assert Reached(db.t.jobs, db.claims[k]);
    }
    assert Occurrence(j, due) !in db.claims;
  }

  /**
   A resume that writes what it computed earlier keeps the order exactly when no occurrence at or after it was claimed
   meanwhile.
   */
  lemma SplitResumeExact(db: Db, next: Next, op: nat)
    requires Ordered(db) && Enabled(db, next, EndResume(op))
    ensures var r := db.inflight[op];
            Ordered(Apply(db, next, EndResume(op))) <==>
            (r.job in db.t.jobs && db.t.jobs[r.job].lastScheduledFor.Some? ==>
               db.t.jobs[r.job].lastScheduledFor.value < r.next)
  {
    var after := Apply(db, next, EndResume(op));
    var r := db.inflight[op];
    assert ReachedStays(db.t.jobs, after.t.jobs);
    ClaimsOrdered(db, next, EndResume(op));
    forall o | o in after.inflight ensures Carried(after.inflight[o], after.now) {
      assert Carried(db.inflight[o], db.now);
    }
    if r.job in db.t.jobs { assert JobOrdered(db.t.jobs[r.job], db.now); }
    forall j | j in after.t.jobs && j != r.job ensures JobOrdered(after.t.jobs[j], after.now) {
      assert JobOrdered(db.t.jobs[j], db.now);
    }
    if Ordered(after) && r.job in db.t.jobs {
      assert JobOrdered(after.t.jobs[r.job], after.now);
    }
  }

  // ---- A split resume over a whole run ----

  /** The last scheduled occurrence of a job has been claimed. */
  ghost predicate LastClaimed(db: Db) {
    forall j :: j in db.t.jobs && db.t.jobs[j].lastScheduledFor.Some? ==>
                  Occurrence(j, db.t.jobs[j].lastScheduledFor.value) in db.claims
  }

  lemma RescheduleLast(db: Db, next: Next, e: Event, j: string)
    requires Enabled(db, next, e) && !AboutRuns(e) && j in Rescheduled(db, next, e).jobs
    ensures var last := Rescheduled(db, next, e).jobs[j].lastScheduledFor;
            || (j in db.t.jobs && last == db.t.jobs[j].lastScheduledFor)
            || last.None?
            || (Claims(db, e) && db.inflight[e.op].job == j && last == Some(db.inflight[e.op].due))
  {}

  lemma LastClaimedKept(db: Db, next: Next, e: Event)
    requires LastClaimed(db) && Enabled(db, next, e)
    ensures LastClaimed(Apply(db, next, e)) && db.claims <= Apply(db, next, e).claims
  {
    var after := Apply(db, next, e);
    forall j | j in after.t.jobs && after.t.jobs[j].lastScheduledFor.Some?
      ensures Occurrence(j, after.t.jobs[j].lastScheduledFor.value) in after.claims
    {
      if AboutRuns(e) {
        RunsLeaveSchedules(db, next, e);
        assert after.t.jobs[j].(last := db.t.jobs[j].last) == db.t.jobs[j];
      } else {
        RescheduleLast(db, next, e, j);
      }
    }
  }

  lemma {:induction false} RunLastClaimed(next: Next, states: seq<Db>, events: seq<Event>, i: nat)
    requires IsRun(next, states, events) && i < |states|
    ensures LastClaimed(states[i])
  {
    if i > 0 {
      RunLastClaimed(next, states, events, i - 1);
      LastClaimedKept(states[i - 1], next, events[i - 1]);
    }
  }

  /** From its read to its write a resume carries what it computed, while claims are only added. */
  lemma {:induction false} ResumeCarried(next: Next, states: seq<Db>, events: seq<Event>, i: nat, k: nat, op: nat,
                                         j: string)
    requires IsRun(next, states, events) && i < k < |states| && events[i] == BeginResume(op, j)
    requires forall m :: i < m < k ==> events[m] != EndResume(op)
    ensures j in states[i].t.jobs && NextOf(states[i], next, j).Some?
    ensures op in states[k].inflight && states[k].inflight[op] == Resuming(j, NextOf(states[i], next, j).value)
    ensures states[i].claims <= states[k].claims
    decreases k
  {
    var s, e := states[k - 1], events[k - 1];
    assert Enabled(s, next, e) && states[k] == Apply(s, next, e);
    if i < k - 1 { ResumeCarried(next, states, events, i, k - 1, op, j); }
  }

  /** An occurrence of the job at or after `due` was claimed between the two states. */
  ghost predicate ClaimedSince(before: Db, after: Db, j: string, due: Instant) {
    exists m :: |before.claims| <= m < |after.claims| && after.claims[m].job == j && due <= after.claims[m].due
  }

  lemma ClaimedSinceIff(before: Db, after: Db, j: string, due: Instant)
    requires Ordered(before) && Ordered(after) && LastClaimed(after) && before.claims <= after.claims
    requires before.now < due
    requires j in before.t.jobs && j in after.t.jobs
    ensures ClaimedSince(before, after, j, due) <==>
            after.t.jobs[j].lastScheduledFor.Some? && due <= after.t.jobs[j].lastScheduledFor.value
  {
    if ClaimedSince(before, after, j, due) {
      var m :| |before.claims| <= m < |after.claims| && after.claims[m].job == j && due <= after.claims[m].due;
      assert Reached(after.t.jobs, after.claims[m]);
    }
    var last := after.t.jobs[j].lastScheduledFor;
    if last.Some? && due <= last.value {
      var m :| 0 <= m < |after.claims| && after.claims[m] == Occurrence(j, last.value);
      if m < |before.claims| {
        assert Reached(before.t.jobs, before.claims[m]) && JobOrdered(before.t.jobs[j], before.now);
      }
    }
  }

  lemma {:induction false} JobsStay(next: Next, states: seq<Db>, events: seq<Event>, i: nat, k: nat)
    requires IsRun(next, states, events) && i <= k < |states|
    ensures states[i].t.jobs.Keys <= states[k].t.jobs.Keys
    decreases k
  {
    if i < k {
      JobsStay(next, states, events, i, k - 1);
      var s, e := states[k - 1], events[k - 1];
      assert Enabled(s, next, e) && states[k] == Apply(s, next, e);
      if AboutRuns(e) { RunsLeaveSchedules(s, next, e); }
    }
  }

  /** A resume of job `j` reads at step `i` and writes at step `k`. */
  ghost predicate Late(events: seq<Event>, i: nat, k: nat, op: nat, j: string) {
    && i < k < |events| && events[i] == BeginResume(op, j) && events[k] == EndResume(op)
    && forall m :: i < m < k ==> events[m] != EndResume(op)
  }

  /** An occurrence at or after the instant a resume computed was claimed between its read and its write. */
  ghost predicate Overtaken(next: Next, states: seq<Db>, events: seq<Event>, i: nat, k: nat, j: string)
    requires i < k < |states|
  {
    && j in states[i].t.jobs && NextOf(states[i], next, j).Some?
    && ClaimedSince(states[i], states[k], j, NextOf(states[i], next, j).value)
  }

  /** Over every run, a late write of a resume breaks an order that was kept so far if and only if it was overtaken. */
  lemma SplitResumeBreaksExactly(next: Next, states: seq<Db>, events: seq<Event>, i: nat, k: nat, op: nat, j: string)
    requires IsRun(next, states, events) && StrictlyLater(next) && Late(events, i, k, op, j)
    requires Ordered(states[i]) && Ordered(states[k])
    ensures Ordered(states[k + 1]) <==> !Overtaken(next, states, events, i, k, j)
  {
    ResumeCarried(next, states, events, i, k, op, j);
    RunLastClaimed(next, states, events, k);
    JobsStay(next, states, events, i, k);
    var due := NextOf(states[i], next, j).value;
    assert states[i].now < due;
    ClaimedSinceIff(states[i], states[k], j, due);
    assert Enabled(states[k], next, events[k]) && states[k + 1] == Apply(states[k], next, events[k]);
    SplitResumeExact(states[k], next, op);
  }

  /** Whatever a resume is about to write it has read at some step. */
  lemma {:induction false} ResumeBegan(next: Next, states: seq<Db>, events: seq<Event>, k: nat,
                                       op: nat) returns (i: nat)
    requires IsRun(next, states, events) && k < |states| && op in states[k].inflight && states[k].inflight[op].Resuming?
    ensures i < k && events[i] == BeginResume(op, states[k].inflight[op].job)
    ensures forall m :: i < m < k ==> events[m] != EndResume(op)
  {
    assert k > 0;
    var s, e := states[k - 1], events[k - 1];
    assert Enabled(s, next, e) && states[k] == Apply(s, next, e);
    if e == BeginResume(op, states[k].inflight[op].job) {
      i := k - 1;
    } else {
      InflightStays(s, next, e, op);
      i := ResumeBegan(next, states, events, k - 1, op);
    }
  }

  lemma InflightStays(s: Db, next: Next, e: Event, op: nat)
    requires Enabled(s, next, e) && op in InflightAfter(s, next, e) && InflightAfter(s, next, e)[op].Resuming?
    requires e != BeginResume(op, InflightAfter(s, next, e)[op].job)
    ensures op in s.inflight && s.inflight[op] == InflightAfter(s, next, e)[op] && e != EndResume(op)
  {}

  lemma {:induction false} OrderedUpTo(next: Next, states: seq<Db>, events: seq<Event>, n: nat)
    requires IsRun(next, states, events) && StrictlyLater(next) && n < |states|
    requires forall i: nat, k: nat, op, j :: Late(events, i, k, op, j) ==> !Overtaken(next, states, events, i, k, j)
    ensures forall m :: 0 <= m <= n ==> Ordered(states[m])
  {
    if n > 0 {
      OrderedUpTo(next, states, events, n - 1);
      var s, e := states[n - 1], events[n - 1];
      assert Enabled(s, next, e) && states[n] == Apply(s, next, e);
      if e.EndResume? {
        var i := ResumeBegan(next, states, events, n - 1, e.op);
        SplitResumeBreaksExactly(next, states, events, i, n - 1, e.op, s.inflight[e.op].job);
      } else {
        OrderedKept(s, next, e);
      }
    }
  }

  /** Over every run: every state is ordered if and only if no late write of a resume was overtaken by a claim. */
  lemma OrderExactly(next: Next, states: seq<Db>, events: seq<Event>)
    requires IsRun(next, states, events) && StrictlyLater(next)
    ensures (forall m :: 0 <= m < |states| ==> Ordered(states[m])) <==>
            (forall i: nat, k: nat, op, j :: Late(events, i, k, op, j) ==> !Overtaken(next, states, events, i, k, j))
  {
    if forall i: nat, k: nat, op, j :: Late(events, i, k, op, j) ==> !Overtaken(next, states, events, i, k, j) {
      OrderedUpTo(next, states, events, |events|);
    }
    if forall m :: 0 <= m < |states| ==> Ordered(states[m]) {
      forall i: nat, k: nat, op, j | Late(events, i, k, op, j) ensures !Overtaken(next, states, events, i, k, j) {
        assert Ordered(states[k + 1]);
        SplitResumeBreaksExactly(next, states, events, i, k, op, j);
      }
    }
  }

  // ---- The order does break when resume's read and write are apart ----

  function EveryMinute(cron: string, zone: string, now: Instant): Option<Instant> { Some((now / 60_000 + 1) * 60_000) }

  const EXAMPLE_ABOUT := About("name", "pi", "prompt", None, None)

  const EXAMPLE_JOB := Job("org", "node", EXAMPLE_ABOUT, "* * * * *", "UTC", Active, 60_000, None, None)

  const EXAMPLE_RUN :=
    Run("job", "org", "node", 60_000, Schedule, 60_000, None, None, Report(Pending, None, None, None, None), Unended)

  const EXAMPLE_EVENTS := [
    Create("job", "org", "node", EXAMPLE_ABOUT, "* * * * *", "UTC"), BeginResume(0, "job"), Tick(60_000),
    BeginClaim(1, "job", "node"), EndClaim(1, "run", true), EndResume(0)]

  function ExampleState(k: nat): Db {
    var waiting := Tables(map["job" := EXAMPLE_JOB], map[]);
    var claimed := EXAMPLE_JOB.(nextRunAt := 120_000, lastScheduledFor := Some(60_000));
    var resuming, claiming := Resuming("job", 60_000), Claiming("job", "node", 60_000, 120_000);
    var claims := [Occurrence("job", 60_000)];
    match k
    case 0 => Db(0, Tables(map[], map[]), map[], [])
    case 1 => Db(0, waiting, map[], [])
    case 2 => Db(0, waiting, map[0 := resuming], [])
    case 3 => Db(60_000, waiting, map[0 := resuming], [])
    case 4 => Db(60_000, waiting, map[0 := resuming, 1 := claiming], [])
    case 5 => Db(60_000, Tables(map["job" := claimed], map["run" := EXAMPLE_RUN]), map[0 := resuming], claims)
    case _ => Db(60_000, Tables(map["job" := claimed.(nextRunAt := 60_000)], map["run" := EXAMPLE_RUN]), map[], claims)
  }

  ghost predicate Leads(before: Db, e: Event, after: Db) {
    Enabled(before, EveryMinute, e) && Apply(before, EveryMinute, e) == after
  }

  lemma ExampleStep(k: nat)
    requires k < |EXAMPLE_EVENTS|
    ensures Leads(ExampleState(k), EXAMPLE_EVENTS[k], ExampleState(k + 1))
  {
    if k == 4 {
      ExampleClaim();
    } else if k == 5 {
      assert ExampleState(5).inflight - {0} == map[];
    } else if k == 3 {
      assert NextOf(ExampleState(3), EveryMinute, "job") == Some(120_000);
    }
  }

  lemma ExampleClaim()
    ensures Leads(ExampleState(4), EndClaim(1, "run", true), ExampleState(5))
  {}

  lemma ExampleEnd()
    ensures var db := ExampleState(6);
            && "job" in db.t.jobs && db.t.jobs["job"].lastScheduledFor == Some(db.t.jobs["job"].nextRunAt)
            && Claimable(db.t, "job", "node", 60_000) && Taken(db.t, "job", 60_000)
  {
    assert ExampleState(6).t.runs["run"].job == "job";
  }

  lemma ExampleRun(states: seq<Db>)
    requires |states| == |EXAMPLE_EVENTS| + 1 && forall k | 0 <= k < |states| :: states[k] == ExampleState(k)
    ensures IsRun(EveryMinute, states, EXAMPLE_EVENTS)
  {
    forall k | 0 <= k < |EXAMPLE_EVENTS| ensures Leads(states[k], EXAMPLE_EVENTS[k], states[k + 1]) {
      ExampleStep(k);
    }
  }

  /**
   A resume reads, the occurrence it computed is claimed, and the late write sets `nextRunAt` back
   onto it. The next claim of that occurrence passes its guard; only the unique index refuses it.
   */
  lemma SplitResumeBreaksOrder() returns (states: seq<Db>)
    ensures StrictlyLater(EveryMinute) && IsRun(EveryMinute, states, EXAMPLE_EVENTS)
    ensures var db := states[|EXAMPLE_EVENTS|];
            && "job" in db.t.jobs && db.t.jobs["job"].lastScheduledFor == Some(db.t.jobs["job"].nextRunAt)
            && Claimable(db.t, "job", "node", 60_000) && Taken(db.t, "job", 60_000)
  {
    states := seq(|EXAMPLE_EVENTS| + 1, (k: nat) => ExampleState(k));
    ExampleRun(states);
    ExampleEnd();
  }
}
