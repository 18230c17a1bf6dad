/** Publishing a batch under the FIFO semaphore. */
module SendQueue {
  import opened Listing
  import opened Sets

  /** The semaphore: free permits, and the sends that wait for one, oldest first. */
  class Semaphore {
    var count: int
    var queue: seq<nat>

    constructor (concurrency: int)
      ensures count == concurrency && queue == []
    {
      count, queue := concurrency, [];
    }

    /** acquire: take a free permit, or wait in line. */
    method Acquire(i: nat, ghost s: State) returns (isGranted: bool)
      requires count == s.count && queue == s.queue && i == s.arrived
      modifies this
      ensures count == AfterArrive(s).count && queue == AfterArrive(s).queue
      ensures isGranted <==> AfterArrive(s).granted == s.granted + [i]
    {
      if count > 0 {
        count := count - 1;
        return true;
      }
      queue := queue + [i];
      return false;
    }

    /** release: hand the permit to the oldest waiter, or put it back. */
    method Release(ghost s: State, ghost i: nat, ghost isSent: bool) returns (next: Option<nat>)
      requires count == s.count && queue == s.queue
      modifies this
      ensures count == AfterFinish(s, i, isSent).count && queue == AfterFinish(s, i, isSent).queue
      ensures AfterFinish(s, i, isSent).granted == if next.Some? then s.granted + [next.value] else s.granted
    {
      if queue != [] {
        next := Some(queue[0]);
        queue := queue[1..];
      } else {
        next := None;
        count := count + 1;
      }
    }
  }

  /**
   A batch of `total` sends under way. `arrived` of them have called run, in message order; `granted` lists those
   that got a permit, in that order; `results` holds what the finished ones returned.
   */
  datatype State = State(total: nat, limit: nat, count: int, queue: seq<nat>, arrived: nat, granted: seq<nat>,
                         results: map<nat, bool>)

  datatype Event = Arrive | Finish(i: nat, isSent: bool)

  predicate Enabled(s: State, e: Event) {
    match e
    case Arrive => s.arrived < s.total
    case Finish(i, _) => i in s.granted && i !in s.results
  }

  function AfterArrive(s: State): State {
    if s.count > 0 then s.(count := s.count - 1, arrived := s.arrived + 1, granted := s.granted + [s.arrived])
    else s.(queue := s.queue + [s.arrived], arrived := s.arrived + 1)
  }

  function AfterFinish(s: State, i: nat, isSent: bool): State {
    var t := s.(results := s.results[i := isSent]);
    if s.queue != [] then t.(queue := s.queue[1..], granted := s.granted + [s.queue[0]]) else t.(count := s.count + 1)
  }

  function Apply(s: State, e: Event): State
    requires Enabled(s, e)
  {
    match e
    case Arrive => AfterArrive(s)
    case Finish(i, isSent) => AfterFinish(s, i, isSent)
  }

  function Init(total: nat, limit: nat): State { State(total, limit, limit, [], 0, [], map[]) }

  // ---- Permits and order ----

  /** The sends that hold a permit: granted and not finished. */
  function Holding(s: State): set<nat> { set i | i in s.granted && i !in s.results }

  function FirstN(n: nat): (r: seq<nat>)
    ensures |r| == n && forall k :: 0 <= k < n ==> r[k] == k
  {
    seq(n, (k: nat) => k)
  }

  ghost predicate Inv(s: State) {
    && s.count >= 0 && s.count + |Holding(s)| == s.limit
    && (s.queue != [] ==> s.count == 0)
    && s.granted + s.queue == FirstN(s.arrived) && s.arrived <= s.total
    && (forall i :: i in s.results ==> i in s.granted)
  }

  lemma ArriveKeeps(s: State)
    requires Inv(s) && s.arrived < s.total
    ensures Inv(AfterArrive(s))
  {
    var t := AfterArrive(s);
    assert FirstN(s.arrived + 1) == FirstN(s.arrived) + [s.arrived];
    assert t.granted + t.queue == s.granted + s.queue + [s.arrived];
    if s.count > 0 {
      assert forall i :: i in s.granted ==> i in s.granted + s.queue;
      assert Holding(t) == Holding(s) + {s.arrived};
    } else {
      assert Holding(t) == Holding(s);
    }
  }

  lemma FinishKeeps(s: State, i: nat, isSent: bool)
    requires Inv(s) && i in s.granted && i !in s.results
    ensures Inv(AfterFinish(s, i, isSent))
  {
    var t := AfterFinish(s, i, isSent);
    if s.queue != [] {
      var next := s.queue[0];
      assert s.granted + s.queue == s.granted + [next] + s.queue[1..];
      assert (s.granted + s.queue)[|s.granted|] == next == |s.granted|;
      forall g | g in s.granted ensures g < |s.granted| {
        var k :| 0 <= k < |s.granted| && s.granted[k] == g;
        assert (s.granted + s.queue)[k] == g;
      }
      assert Holding(t) == Holding(s) - {i} + {next};
    } else {
      assert Holding(t) == Holding(s) - {i};
    }
  }

  ghost predicate IsRun(total: nat, limit: nat, states: seq<State>, events: seq<Event>) {
    && |states| == |events| + 1 && states[0] == Init(total, limit)
    && forall k :: 0 <= k < |events| ==> Enabled(states[k], events[k]) && states[k + 1] == Apply(states[k], events[k])
  }

  /**
   In every reachable state free and held permits add up to the limit, nobody waits while a permit is free, and sends
   are granted in the order they arrived: the granted ones followed by the waiting ones are 0, 1, 2, ...
   */
  lemma {:induction false} PermitsAndOrder(total: nat, limit: nat, states: seq<State>, events: seq<Event>)
    requires IsRun(total, limit, states, events)
    ensures Inv(states[|events|]) && states[|events|].total == total && states[|events|].limit == limit
    decreases |events|
  {
    var n := |events|;
    if n > 0 {
      PermitsAndOrder(total, limit, states[..n], events[..n - 1]);
      match events[n - 1]
      case Arrive => ArriveKeeps(states[n - 1]);
      case Finish(i, isSent) => FinishKeeps(states[n - 1], i, isSent);
    } else {
      assert Holding(states[0]) == {};
    }
  }

  // ---- Everything is sent ----

  /** Every step brings the batch closer to its end. */
  function Remaining(s: State): int { 2 * s.total - s.arrived - |s.results| }

  lemma StepsAreBounded(s: State, e: Event)
    requires Inv(s) && Enabled(s, e)
    ensures Remaining(Apply(s, e)) == Remaining(s) - 1
  {}

  lemma ResultsBounded(s: State)
    requires Inv(s)
    ensures |s.results| <= s.arrived && Remaining(s) >= 0
    ensures |s.results| == s.arrived ==> forall i :: 0 <= i < s.arrived ==> i in s.results
  {
    var all := UpTo(s.arrived);
    forall i | i in s.results ensures i in all {
      var k :| 0 <= k < |s.granted| && s.granted[k] == i;
      assert (s.granted + s.queue)[k] == i;
    }
    assert s.results.Keys <= all;
    SubsetSize(s.results.Keys, all);
  }

  function UpTo(n: nat): (r: set<nat>)
    ensures |r| == n && forall i :: i in r <==> 0 <= i < n
  {
    if n == 0 then {} else UpTo(n - 1) + {n - 1}
  }

  /** While a send is unfinished some step is possible, so a batch whose sends all finish never gets stuck. */
  lemma NeverStuck(s: State)
    requires Inv(s) && s.limit > 0 && exists i :: 0 <= i < s.total && i !in s.results
    ensures exists e :: Enabled(s, e)
  {
    if s.arrived < s.total {
      assert Enabled(s, Arrive);
    } else {
      var i :| 0 <= i < s.total && i !in s.results;
      assert FirstN(s.arrived)[i] == i;
      if i in s.granted {
        assert Enabled(s, Finish(i, true));
      } else {
        assert (s.granted + s.queue)[i] == i;
        assert i in s.queue;
        assert |Holding(s)| > 0;
        var h :| h in Holding(s);
        assert Enabled(s, Finish(h, true));
      }
    }
  }

  // ---- The returned count ----

  /** results.filter(Boolean).length over the results in message order. */
  function CountTrue(results: map<nat, bool>, n: nat): nat
    requires forall i :: 0 <= i < n ==> i in results
  {
    if n == 0 then 0 else CountTrue(results, n - 1) + if results[n - 1] then 1 else 0
  }

  lemma {:induction false} CountTrueIsSuccesses(results: map<nat, bool>, n: nat)
    requires forall i :: 0 <= i < n ==> i in results
    ensures CountTrue(results, n) == |set i | 0 <= i < n && results[i]|
  {
    if n > 0 {
      CountTrueIsSuccesses(results, n - 1);
      var before := set i | 0 <= i < n - 1 && results[i];
      assert (set i | 0 <= i < n && results[i]) == if results[n - 1] then before + {n - 1} else before;
    }
  }

  /** A run that cannot go on has finished every send, and the count it returns is the number of successful sends. */
  lemma BatchCompletes(total: nat, limit: nat, states: seq<State>, events: seq<Event>)
    requires IsRun(total, limit, states, events) && limit > 0 && forall e :: !Enabled(states[|events|], e)
    ensures var results := states[|events|].results;
            && (forall i :: 0 <= i < total ==> i in results)
            && CountTrue(results, total) == |set i | 0 <= i < total && results[i]|
    ensures |events| == 2 * total
  {
    PermitsAndOrder(total, limit, states, events);
    var s := states[|events|];
    if exists i :: 0 <= i < total && i !in s.results {
      NeverStuck(s);
    }
    CountTrueIsSuccesses(s.results, total);
    RunLength(total, limit, states, events);
    assert !Enabled(s, Arrive);
    ResultsBounded(s);
    SubsetSize(UpTo(total), s.results.Keys);
  }

  lemma {:induction false} RunLength(total: nat, limit: nat, states: seq<State>, events: seq<Event>)
    requires IsRun(total, limit, states, events)
    ensures |events| == 2 * total - Remaining(states[|events|])
    decreases |events|
  {
    var n := |events|;
    if n > 0 {
      RunLength(total, limit, states[..n], events[..n - 1]);
      PermitsAndOrder(total, limit, states[..n], events[..n - 1]);
      StepsAreBounded(states[n - 1], events[n - 1]);
    }
  }
}
