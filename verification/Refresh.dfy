/** Coalescing of schedule refreshes: the two flags, the workers they start, and which requests are served. */
module Refresh {

  /** Where a worker goroutine stands; it decides under the mutex after every refresh. */
  datatype Phase = Starting | Refreshing | Deciding | Gone

  /** `live` is the worker's context, taken from the request that started it. */
  datatype Worker = Worker(phase: Phase, live: bool)

  /**
   `requests` counts the accepted requests, `served` how many of them came before the latest refresh start, and
   `starts` the refresh starts.
   */
  datatype State = State(running: bool, pending: bool, workers: seq<Worker>, requests: nat, served: nat, starts: nat)

  datatype Event =
    | Request(live: bool)
    | Cancel(w: nat)
    | Begin(w: nat)
    | End(w: nat)
    | Decide(w: nat)

  predicate Enabled(s: State, e: Event) {
    match e
    case Request(_) => true
    case Cancel(w) => w < |s.workers|
    case Begin(w) => w < |s.workers| && s.workers[w].phase.Starting?
    case End(w) => w < |s.workers| && s.workers[w].phase.Refreshing?
    case Decide(w) => w < |s.workers| && s.workers[w].phase.Deciding?
  }

  function SetPhase(s: State, w: nat, phase: Phase): State
    requires w < |s.workers|
  {
    s.(workers := s.workers[w := s.workers[w].(phase := phase)])
  }

  /** requestScheduledJobsRefresh; a request on a dead context is dropped at once. */
  function AfterRequest(s: State, live: bool): State {
    if !live then s
    else if s.running then s.(pending := true, requests := s.requests + 1)
    else s.(running := true, workers := s.workers + [Worker(Starting, true)], requests := s.requests + 1)
  }

  predicate Stops(s: State, w: nat)
    requires w < |s.workers|
  {
    !s.workers[w].live || !s.pending
  }

  function AfterDecide(s: State, w: nat): State
    requires w < |s.workers|
  {
    if Stops(s, w) then SetPhase(s, w, Gone).(running := false, pending := false)
    else SetPhase(s, w, Starting).(pending := false)
  }

  function Apply(s: State, e: Event): State
    requires Enabled(s, e)
  {
    match e
    case Request(live) => AfterRequest(s, live)
    case Cancel(w) => s.(workers := s.workers[w := s.workers[w].(live := false)])
    case Begin(w) => SetPhase(s, w, Refreshing).(served := s.requests, starts := s.starts + 1)
    case End(w) => SetPhase(s, w, Deciding)
    case Decide(w) => AfterDecide(s, w)
  }

  /** The mutex-protected state with its two critical sections. */
  class ScheduleRefreshState {
    var running: bool
    var pending: bool

    constructor ()
      ensures !running && !pending
    {
      running, pending := false, false;
    }

    method RequestScheduledJobsRefresh(live: bool, ghost s: State) returns (shouldStart: bool)
      requires running == s.running && pending == s.pending
      modifies this
      ensures running == AfterRequest(s, live).running && pending == AfterRequest(s, live).pending
      ensures shouldStart <==> |AfterRequest(s, live).workers| == |s.workers| + 1
    {
      if !live {
        return false;
      }
      if running {
        pending := true;
        return false;
      }
      running := true;
      return true;
    }

    /** The decision after one refresh: go on or stop. */
    method DecideRefresh(live: bool, ghost s: State, ghost w: nat) returns (goesOn: bool)
      requires running == s.running && pending == s.pending && w < |s.workers| && s.workers[w].live == live
      modifies this
      ensures running == AfterDecide(s, w).running && pending == AfterDecide(s, w).pending
      ensures goesOn <==> AfterDecide(s, w).workers[w].phase.Starting?
    {
      if !live || !pending {
        running := false;
        pending := false;
        return false;
      }
      pending := false;
      return true;
    }
  }

  // ---- One worker at a time ----

  /** The newest worker is the only one that can be at work, and it is exactly while `running` is set. */
  ghost predicate Single(s: State) {
    && (forall w :: 0 <= w < |s.workers| - 1 ==> s.workers[w].phase.Gone?)
    && (s.running <==> |s.workers| > 0 && !s.workers[|s.workers| - 1].phase.Gone?)
    && (s.pending ==> s.running)
  }

  /** Unless a request is pending, every accepted request came before the refresh that is under way or just ended. */
  ghost predicate Serving(s: State) {
    && s.served <= s.requests && s.starts <= s.requests
    && (s.running && s.workers != [] ==>
          var phase := s.workers[|s.workers| - 1].phase;
          && (phase.Starting? ==> s.starts + (if s.pending then 1 else 0) < s.requests)
          && (phase.Refreshing? || phase.Deciding? ==>
                (s.served < s.requests ==> s.pending) && (s.pending ==> s.starts < s.requests)))
  }

  ghost predicate Inv(s: State) { Single(s) && Serving(s) }

  lemma InvKept(s: State, e: Event)
    requires Inv(s) && Enabled(s, e)
    ensures Inv(Apply(s, e))
  {}

  ghost predicate IsRun(states: seq<State>, events: seq<Event>) {
    && |states| == |events| + 1 && states[0] == State(false, false, [], 0, 0, 0)
    && forall k :: 0 <= k < |events| ==> Enabled(states[k], events[k]) && states[k + 1] == Apply(states[k], events[k])
  }

  lemma {:induction false} RunInv(states: seq<State>, events: seq<Event>, i: nat)
    requires IsRun(states, events) && i < |states|
    ensures Inv(states[i])
  {
    if i > 0 {
      RunInv(states, events, i - 1);
      InvKept(states[i - 1], events[i - 1]);
    }
  }

  /** In every reachable state at most one worker is at work and a pending request implies one. */
  lemma OneRefreshAtATime(states: seq<State>, events: seq<Event>, i: nat, v: nat, w: nat)
    requires IsRun(states, events) && i < |states| && v < w < |states[i].workers|
    ensures states[i].workers[v].phase.Gone?
    ensures states[i].pending ==> states[i].running
  {
    RunInv(states, events, i);
  }

  // ---- One worker, followed through a run ----

  predicate Working(phase: Phase) { phase.Refreshing? || phase.Deciding? }

  /** `e` does not occur at the positions from `i` up to `m`. */
  ghost predicate Without(events: seq<Event>, e: Event, i: nat, m: nat)
    requires m <= |events|
  {
    forall r :: i <= r < m ==> events[r] != e
  }

  /** Worker `w` exists from `i` up to `m`. */
  ghost predicate Span(states: seq<State>, events: seq<Event>, w: nat, i: nat, m: nat) {
    IsRun(states, events) && i <= m < |states| && w < |states[i].workers|
  }

  lemma {:induction false} StaysStarting(states: seq<State>, events: seq<Event>, w: nat, i: nat, m: nat)
    requires Span(states, events, w, i, m) && states[i].workers[w].phase.Starting? && Without(events, Begin(w), i, m)
    ensures w < |states[m].workers| && states[m].workers[w].phase.Starting?
    decreases m - i
  {
    if i < m { StaysStarting(states, events, w, i, m - 1); }
  }

  lemma {:induction false} StaysGone(states: seq<State>, events: seq<Event>, w: nat, i: nat, m: nat)
    requires Span(states, events, w, i, m) && states[i].workers[w].phase.Gone?
    ensures w < |states[m].workers| && states[m].workers[w].phase.Gone? && Without(events, Begin(w), i, m)
    decreases m - i
  {
    if i < m {
      StaysGone(states, events, w, i, m - 1);
      assert Enabled(states[m - 1], events[m - 1]);
    }
  }

  lemma {:induction false} StaysWorking(states: seq<State>, events: seq<Event>, w: nat, i: nat, m: nat)
    requires Span(states, events, w, i, m) && Working(states[i].workers[w].phase) && Without(events, Decide(w), i, m)
    ensures w < |states[m].workers| && Working(states[m].workers[w].phase) && Without(events, Begin(w), i, m)
    decreases m - i
  {
    if i < m {
      StaysWorking(states, events, w, i, m - 1);
      assert Enabled(states[m - 1], events[m - 1]);
    }
  }

  lemma {:induction false} StaysAtWork(states: seq<State>, events: seq<Event>, w: nat, i: nat, m: nat)
    requires Span(states, events, w, i, m) && !states[i].workers[w].phase.Gone? && Without(events, Decide(w), i, m)
    ensures w < |states[m].workers| && !states[m].workers[w].phase.Gone?
    decreases m - i
  {
    if i < m { StaysAtWork(states, events, w, i, m - 1); }
  }

  /** While a worker is at work and does not decide, `pending` records exactly whether a request has come. */
  lemma {:induction false} PendingRecords(states: seq<State>, events: seq<Event>, w: nat, i: nat, m: nat)
    requires Span(states, events, w, i, m) && !states[i].workers[w].phase.Gone? && Without(events, Decide(w), i, m)
    ensures states[m].pending <==> states[i].pending || !Without(events, Request(true), i, m)
    decreases m - i
  {
    if i < m {
      PendingRecords(states, events, w, i, m - 1);
      StaysAtWork(states, events, w, i, m - 1);
      RunInv(states, events, m - 1);
      OnlyNewestDecides(states[m - 1], events[m - 1], w);
      assert Without(events, Request(true), i, m) <==>
             Without(events, Request(true), i, m - 1) && events[m - 1] != Request(true);
    }
  }

  lemma OnlyNewestDecides(s: State, e: Event, w: nat)
    requires Inv(s) && Enabled(s, e) && w < |s.workers| && !s.workers[w].phase.Gone? && e != Decide(w)
    ensures s.running && Apply(s, e).pending == (s.pending || e == Request(true))
  {
    assert w == |s.workers| - 1;
  }

  lemma {:induction false} FirstDecide(states: seq<State>, events: seq<Event>, w: nat, i: nat, m: nat) returns (j: nat)
    requires Span(states, events, w, i, m) && !states[i].workers[w].phase.Gone?
    requires w < |states[m].workers| && states[m].workers[w].phase.Gone?
    ensures i <= j < m && events[j] == Decide(w) && Without(events, Decide(w), i, j)
  {
    j := i;
    if Without(events, Decide(w), i, m) {
      StaysAtWork(states, events, w, i, m);
    }
    while events[j] != Decide(w)
      invariant i <= j < m && Without(events, Decide(w), i, j) && !Without(events, Decide(w), i, m)
      decreases m - j
    {
      j := j + 1;
    }
  }

  // ---- Coalescing, round by round ----

  /** Worker `w` opens a round at `i`, by being started or by deciding to go on, and decides next at `j`. */
  ghost predicate Round(states: seq<State>, events: seq<Event>, w: nat, i: nat, j: nat) {
    && IsRun(states, events) && i < j < |events|
    && w < |states[i + 1].workers| && states[i + 1].workers[w].phase.Starting?
    && (w == |states[i].workers| || events[i] == Decide(w))
    && events[j] == Decide(w) && Without(events, Decide(w), i + 1, j)
  }

  lemma RoundOpens(states: seq<State>, events: seq<Event>, w: nat, i: nat, j: nat)
    requires Round(states, events, w, i, j)
    ensures !states[i + 1].pending
  {
    RunInv(states, events, i);
    assert Enabled(states[i], events[i]) && states[i + 1] == Apply(states[i], events[i]);
  }

  /**
   In every run, between two decisions a worker starts exactly one refresh, and it goes on to another one if and only
   if its context is live and at least one request came in between, however many did.
   */
  lemma RoundExactly(states: seq<State>, events: seq<Event>, w: nat, i: nat, j: nat)
    requires Round(states, events, w, i, j)
    ensures exists b :: i < b < j && events[b] == Begin(w) && Without(events, Begin(w), i + 1, b)
                        && Without(events, Begin(w), b + 1, j)
    ensures w < |states[j].workers| && w < |states[j + 1].workers|
    ensures states[j + 1].workers[w].phase.Starting? <==>
            states[j].workers[w].live && !Without(events, Request(true), i + 1, j)
  {
    RoundOpens(states, events, w, i, j);
    PendingRecords(states, events, w, i + 1, j);
    assert Enabled(states[j], events[j]) && states[j + 1] == Apply(states[j], events[j]);
    if Without(events, Begin(w), i + 1, j) {
      StaysStarting(states, events, w, i + 1, j);
    }
    var b := FirstBegin(events, w, i + 1, j);
    StaysAtWork(states, events, w, i + 1, b);
    assert Enabled(states[b], events[b]) && states[b + 1] == Apply(states[b], events[b]);
    StaysWorking(states, events, w, b + 1, j);
  }

  lemma FirstBegin(events: seq<Event>, w: nat, i: nat, m: nat) returns (b: nat)
    requires m <= |events| && !Without(events, Begin(w), i, m)
    ensures i <= b < m && events[b] == Begin(w) && Without(events, Begin(w), i, b)
  {
    b := i;
    while events[b] != Begin(w)
      invariant i <= b < m && Without(events, Begin(w), i, b)
      decreases m - b
    {
      b := b + 1;
    }
  }

  // ---- Which requests are lost ----

  /** The worker that has to serve a request made at `k`. */
  function Server(states: seq<State>, k: nat): int
    requires k + 1 < |states|
  {
    |states[k + 1].workers| - 1
  }

  /** The worker has stopped, and started no refresh after the request. */
  ghost predicate Lost(states: seq<State>, events: seq<Event>, k: nat)
    requires |states| == |events| + 1 && k < |events|
  {
    var w := Server(states, k);
    0 <= w < |states[|events|].workers| && states[|events|].workers[w].phase.Gone?
    && Without(events, Begin(w), k + 1, |events|)
  }

  /** The request came after the start of a refresh, and the worker's context is dead when it decides next. */
  ghost predicate MetDeadWorker(states: seq<State>, events: seq<Event>, k: nat, j: nat)
    requires |states| == |events| + 1 && k < |events|
  {
    var w := Server(states, k);
    && k < j < |events| && 0 <= w < |states[k].workers| && Working(states[k].workers[w].phase)
    && events[j] == Decide(w) && Without(events, Decide(w), k + 1, j)
    && w < |states[j].workers| && !states[j].workers[w].live
  }

  lemma Accepted(states: seq<State>, events: seq<Event>, k: nat)
    requires IsRun(states, events) && k < |events| && events[k] == Request(true)
    ensures var w := Server(states, k);
            && w >= 0 && !states[k + 1].workers[w].phase.Gone?
            && (if w < |states[k].workers| && Working(states[k].workers[w].phase)
                then states[k + 1].workers[w] == states[k].workers[w] && states[k + 1].pending
                else states[k + 1].workers[w].phase.Starting?)
  {
    RunInv(states, events, k);
    assert states[k + 1] == Apply(states[k], events[k]);
  }

  lemma DeadWorkerLoses(states: seq<State>, events: seq<Event>, k: nat, j: nat)
    requires IsRun(states, events) && k < |events| && events[k] == Request(true) && MetDeadWorker(states, events, k, j)
    ensures Lost(states, events, k)
  {
    var w := Server(states, k);
    Accepted(states, events, k);
    StaysWorking(states, events, w, k + 1, j);
    assert states[j + 1] == Apply(states[j], events[j]);
    StaysGone(states, events, w, j + 1, |events|);
    assert events[j] != Begin(w);
  }

  lemma LossMeetsDeadWorker(states: seq<State>, events: seq<Event>, k: nat) returns (j: nat)
    requires IsRun(states, events) && k < |events| && events[k] == Request(true) && Lost(states, events, k)
    ensures MetDeadWorker(states, events, k, j)
  {
    var w, n := Server(states, k), |events|;
    Accepted(states, events, k);
    if states[k + 1].workers[w].phase.Starting? {
      StaysStarting(states, events, w, k + 1, n);
    }
    j := FirstDecide(states, events, w, k + 1, n);
    StaysWorking(states, events, w, k + 1, j);
    PendingRecords(states, events, w, k + 1, j);
    assert Enabled(states[j], events[j]) && states[j + 1] == Apply(states[j], events[j]);
    if states[j].workers[w].live {
      StaysStarting(states, events, w, j + 1, n);
    }
  }

  /**
   In every run, an accepted request is lost if and only if it came while a refresh was under way, or its worker was
   about to decide, and that worker's context is dead at its next decision. Otherwise a refresh starts after it.
   */
  lemma LostExactly(states: seq<State>, events: seq<Event>, k: nat)
    requires IsRun(states, events) && k < |events| && events[k] == Request(true)
    ensures Lost(states, events, k) <==> exists j :: MetDeadWorker(states, events, k, j)
  {
    if Lost(states, events, k) {
      var j := LossMeetsDeadWorker(states, events, k);
    }
    if j :| MetDeadWorker(states, events, k, j) {
      DeadWorkerLoses(states, events, k, j);
    }
  }

  /** Without a canceled worker, every idle state has started a refresh after every accepted request. */
  lemma {:induction false} IdleMeansServed(states: seq<State>, events: seq<Event>, i: nat)
    requires IsRun(states, events) && i < |states| && forall k :: 0 <= k < |events| ==> !events[k].Cancel?
    ensures forall w :: 0 <= w < |states[i].workers| ==> states[i].workers[w].live
    ensures !states[i].running ==> states[i].served == states[i].requests
  {
    if i > 0 {
      IdleMeansServed(states, events, i - 1);
      RunInv(states, events, i - 1);
      var s, e := states[i - 1], events[i - 1];
      assert Enabled(s, e) && states[i] == Apply(s, e) && !e.Cancel?;
      if e.Decide? { assert e.w == |s.workers| - 1; }
    }
  }

  // ---- How many refreshes a run has ----

  function Begins(events: seq<Event>): nat {
    if events == [] then 0 else Begins(events[..|events| - 1]) + if events[|events| - 1].Begin? then 1 else 0
  }

  /** The requests made on a live context. */
  function Requests(events: seq<Event>): nat {
    if events == [] then 0
    else Requests(events[..|events| - 1]) + if events[|events| - 1] == Request(true) then 1 else 0
  }

  /** The decisions to go on. */
  function GoOns(states: seq<State>, events: seq<Event>): nat
    requires |states| == |events| + 1
    decreases |events|
  {
    if events == [] then 0
    else
      var n := |events| - 1;
      var e := events[n];
      GoOns(states[..n + 1], events[..n]) +
      if e.Decide? && e.w < |states[n].workers| && !Stops(states[n], e.w) then 1 else 0
  }

  /** One while the worker at work has still to start its refresh. */
  function ToStart(s: State): nat { if s.running && s.workers != [] && Newest(s).phase.Starting? then 1 else 0 }

  /**
   One refresh for every worker started and one for every decision to go on, the last of them possibly still to start.
   */
  lemma {:induction false} RefreshesCounted(states: seq<State>, events: seq<Event>)
    requires IsRun(states, events)
    ensures var s := states[|events|];
            && Begins(events) == s.starts <= s.requests == Requests(events)
            && s.starts + ToStart(s) == |s.workers| + GoOns(states, events)
    decreases |events|
  {
    RunInv(states, events, |events|);
    var n := |events|;
    if n > 0 {
      RefreshesCounted(states[..n], events[..n - 1]);
      RunInv(states, events, n - 1);
      assert states[..n][..n - 1 + 1] == states[..n];
      CountStep(states[n - 1], events[n - 1]);
    }
  }

  lemma CountStep(s: State, e: Event)
    requires Inv(s) && Enabled(s, e)
    ensures Apply(s, e).starts == s.starts + if e.Begin? then 1 else 0
    ensures Apply(s, e).requests == s.requests + if e == Request(true) then 1 else 0
    ensures var t := Apply(s, e);
            |t.workers| - |s.workers| + (if e.Decide? && !Stops(s, e.w) then 1 else 0) ==
            (if e.Begin? then 1 else 0) + ToStart(t) - ToStart(s)
  {
    if !e.Request? && !e.Cancel? {
      assert e.w == |s.workers| - 1;
    }
  }

  // ---- A worker left to itself ----

  function Newest(s: State): Worker
    requires s.workers != []
  {
    s.workers[|s.workers| - 1]
  }

  /** The next thing the worker at work does by itself. */
  function Onward(s: State): State
    requires s.workers != [] && !Newest(s).phase.Gone?
  {
    var w := |s.workers| - 1;
    match s.workers[w].phase
    case Starting => Apply(s, Begin(w))
    case Refreshing => Apply(s, End(w))
    case Deciding => Apply(s, Decide(w))
  }

  function Distance(s: State): nat {
    if s.workers == [] || Newest(s).phase.Gone? then 0
    else (match Newest(s).phase case Starting => 3 case Refreshing => 2 case _ => 1) + if s.pending then 3 else 0
  }

  /** The worker left to itself: no further request comes, its context stays as it is. */
  function Drained(s: State): State
    decreases Distance(s)
  {
    if s.workers == [] || Newest(s).phase.Gone? then s else Drained(Onward(s))
  }

  /**
   Coalescing and service. However many requests came in, a worker with a live context, left to itself, starts exactly
   one refresh if it has not started its current one, exactly one more if a request is pending, and then stops with
   every accepted request followed by a refresh start.
   */
  lemma {:induction false} WorkerDrains(s: State)
    requires Inv(s) && s.running && Newest(s).live
    ensures var t := Drained(s);
            && !t.running && !t.pending && t.requests == s.requests && t.served == t.requests
            && t.starts == s.starts + (if Newest(s).phase.Starting? then 1 else 0) + (if s.pending then 1 else 0)
    decreases Distance(s)
  {
    var w := |s.workers| - 1;
    var phase := s.workers[w].phase;
    var e := if phase.Starting? then Begin(w) else if phase.Refreshing? then End(w) else Decide(w);
    InvKept(s, e);
    assert Onward(s) == Apply(s, e);
    if Onward(s).running {
      WorkerDrains(Onward(s));
    }
  }

  // ---- Runs at the edge ----

  /** A lost request: the second request comes on a live context of its own and is never served. */
  lemma RequestLostWithWorker() returns (states: seq<State>)
    ensures var events := [Request(true), Begin(0), Cancel(0), Request(true), End(0), Decide(0)];
            && IsRun(states, events)
            && !states[6].running && states[6].served < states[6].requests
  {
    var s0 := State(false, false, [], 0, 0, 0);
    var s1 := Apply(s0, Request(true));
    var s2 := Apply(s1, Begin(0));
    var s3 := Apply(s2, Cancel(0));
    var s4 := Apply(s3, Request(true));
    var s5 := Apply(s4, End(0));
    states := [s0, s1, s2, s3, s4, s5, Apply(s5, Decide(0))];
  }

  /** A request pending on a dead context is not lost when it came before the refresh started. */
  lemma PendingButServed() returns (states: seq<State>)
    ensures var events := [Request(true), Request(true), Begin(0), Cancel(0), End(0), Decide(0)];
            && IsRun(states, events)
            && states[5].pending && !states[5].workers[0].live && !states[6].running
            && states[6].served == states[6].requests
  {
    var s0 := State(false, false, [], 0, 0, 0);
    var s1 := Apply(s0, Request(true));
    var s2 := Apply(s1, Request(true));
    var s3 := Apply(s2, Begin(0));
    var s4 := Apply(s3, Cancel(0));
    var s5 := Apply(s4, End(0));
    states := [s0, s1, s2, s3, s4, s5, Apply(s5, Decide(0))];
  }
}
