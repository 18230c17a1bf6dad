/** What every step of the coordinator keeps, one invariant at a time. */
module CoordinatorSafety {
  import opened Listing
  import opened Coordinator

  // ---- Registration: one executor per key, registered exactly while it runs ----

  ghost predicate Registry(scans: seq<Scan>, active: map<Key, nat>) {
    && (forall k :: k in active ==> active[k] < |scans| && scans[active[k]].key == k && scans[active[k]].phase.Running?)
    && (forall i :: 0 <= i < |scans| && scans[i].phase.Running? ==> scans[i].key in active && active[scans[i].key] == i)
    && (forall i, j :: 0 <= i < j < |scans| && scans[i].key == scans[j].key ==> scans[i].phase.Done?)
  }

  // ---- Links between scans ----

  /** The link from one scan to the scan its delayed waiters share. */
  ghost predicate LinkOk(scans: seq<Scan>, i: nat)
    requires i < |scans|
  {
    scans[i].followup.Some? ==>
      var f := scans[i].followup.value;
      && f < |scans|
      && scans[f].key.path == scans[i].key.path
      && scans[i].phase.Done?
      && (scans[f].phase.Done? ==> scans[i].phase.order < scans[f].phase.order)
      && (scans[f].key == scans[i].key ==> i < f)
  }

  /** Links lead to executors that return later, and within one key to scans created later. */
  ghost predicate Chained(scans: seq<Scan>, finished: nat) {
    && (forall i :: 0 <= i < |scans| && scans[i].phase.Done? ==> scans[i].phase.order < finished)
    && (forall i :: 0 <= i < |scans| ==> LinkOk(scans, i))
  }

  /** What no step takes back: scans keep their name, and an executor returns once. */
  ghost predicate Grows(before: seq<Scan>, after: seq<Scan>) {
    && |before| <= |after|
    && forall i :: 0 <= i < |before| ==>
                     && after[i].key == before[i].key && after[i].identity == before[i].identity
                     && after[i].generation == before[i].generation
                     && (before[i].phase.Done? ==> after[i].phase == before[i].phase)
  }

  // ---- Callers against scans ----

  predicate Visiting(pc: Pc) {
    || pc.Waiting? || pc.Woken? || pc.Validated? || pc.Leaving? || pc.Canceling? || pc.Left? || pc.Confirming?
    || pc.Rechecking?
  }

  /** A caller retries only after the executor it waited for has really returned. */
  ghost predicate Sound(scans: seq<Scan>, c: Caller) {
    var pc := c.pc;
    && (pc.Joining? || pc.Resolved? ==> pc.key.path == c.path)
    && ((pc.Idle? || pc.Resolved? || pc.Joining?) && pc.previous.Some? ==>
          pc.previous.value < |scans| && scans[pc.previous.value].phase.Done?
          && scans[pc.previous.value].key.path == c.path)
    && (Visiting(pc) ==>
          pc.visit.key.path == c.path && pc.visit.scan < |scans| && scans[pc.visit.scan].key.path == c.path)
    && (pc.Woken? || pc.Validated? || pc.Confirming? || pc.Rechecking? ==> scans[pc.visit.scan].phase.Done?)
    && (pc.Validated? ==> scans[pc.visit.scan].phase.result.Listed?)
    && (pc.Leaving? || pc.Canceling? || pc.Left? ==>
          pc.outcome.Snap? || (IsContextError(pc.outcome.err) && c.expired.None?) ==> scans[pc.visit.scan].phase.Done?)
    && (c.expired.Some? ==> IsContextError(c.expired.value))
    && (pc.Returned? && pc.result.Final? ==> pc.result.key.path == c.path && (c.mode.Progress? ==> pc.result.isFresh))
    && (pc.Returned? && pc.result.Raised? && IsContextError(pc.result.err) ==> c.expired == Some(pc.result.err))
  }

  lemma SoundStable(before: seq<Scan>, after: seq<Scan>, c: Caller)
    requires Grows(before, after) && Sound(before, c)
    ensures Sound(after, c)
  {}

  /** The steps from the call to the end of the wait. */
  predicate IsApproach(p: Private) {
    p.Expire? || p.GiveUp? || p.Resolve? || p.Identify? || p.Wake? || p.WakeExpired?
  }

  lemma SoundApproach(sh: Shared, c: Caller, p: Private)
    requires Sound(sh.scans, c) && Allowed(sh, c, p) && IsApproach(p)
    ensures Sound(sh.scans, After(sh, c, p))
  {}

  lemma SoundReading(sh: Shared, c: Caller, p: Private)
    requires Sound(sh.scans, c) && Allowed(sh, c, p) && (p.ReadIdentity? || p.CheckGeneration?)
    ensures Sound(sh.scans, After(sh, c, p))
  {}

  lemma SoundReturn(sh: Shared, c: Caller, p: Private)
    requires Sound(sh.scans, c) && Allowed(sh, c, p) && (p.Settle? || p.Recheck? || p.Confirm?)
    ensures Sound(sh.scans, After(sh, c, p))
  {}

  lemma SoundStep(sh: Shared, c: Caller, p: Private)
    requires Sound(sh.scans, c) && Allowed(sh, c, p)
    ensures Sound(sh.scans, After(sh, c, p))
  {
    if IsApproach(p) {
      SoundApproach(sh, c, p);
    } else if p.ReadIdentity? || p.CheckGeneration? {
      SoundReading(sh, c, p);
    } else {
      SoundReturn(sh, c, p);
    }
  }

  // ---- One step on the scans ----

  ghost predicate ScansOk(sh: Shared) { Registry(sh.scans, sh.active) && Chained(sh.scans, sh.finished) }

  lemma OpenKeeps(sh: Shared, key: Key, identity: nat)
    requires ScansOk(sh) && key !in sh.active
    ensures ScansOk(Open(sh, key, identity)) && Grows(sh.scans, Open(sh, key, identity).scans)
  {
    var t := Open(sh, key, identity);
    forall i | 0 <= i < |t.scans| ensures LinkOk(t.scans, i) {
      if i < |sh.scans| { assert LinkOk(sh.scans, i); }
    }
  }

  /** A link is only ever set from an ended scan to one that is still running, or left as it was. */
  lemma LinkKeeps(sh: Shared, previous: nat, f: nat)
    requires ScansOk(sh) && Ended(sh, previous) && f < |sh.scans| && sh.scans[f].key.path == sh.scans[previous].key.path
    requires sh.scans[previous].followup == Some(f) || sh.scans[f].phase.Running?
    ensures ScansOk(Link(sh, Some(previous), f)) && Grows(sh.scans, Link(sh, Some(previous), f).scans)
  {
    var t := Link(sh, Some(previous), f);
    forall i | 0 <= i < |t.scans| ensures LinkOk(t.scans, i) {
      assert LinkOk(sh.scans, i);
    }
  }

  lemma SameShape(sh: Shared, t: Shared)
    requires ScansOk(sh) && t.active == sh.active && t.finished == sh.finished && |t.scans| == |sh.scans|
    requires forall i :: 0 <= i < |sh.scans| ==>
                           && t.scans[i].key == sh.scans[i].key && t.scans[i].followup == sh.scans[i].followup
                           && t.scans[i].phase.Done? == sh.scans[i].phase.Done?
                           && (t.scans[i].phase.Done? ==> t.scans[i].phase == sh.scans[i].phase)
    ensures ScansOk(t)
  {
    forall i | 0 <= i < |t.scans| ensures LinkOk(t.scans, i) {
      assert LinkOk(sh.scans, i);
    }
  }

  lemma TargetOk(sh: Shared, c: Caller)
    requires ScansOk(sh) && c.pc.Joining? && Sound(sh.scans, c)
    ensures CanJoin(sh, c.pc.key, c.pc.previous)
    ensures var target := Target(sh, c.pc.key, c.pc.previous);
            if target.None? then c.pc.key !in sh.active
            else && sh.scans[target.value].key.path == c.path
                 && (c.pc.previous.Some? ==>
                       sh.scans[c.pc.previous.value].followup == target || sh.scans[target.value].phase.Running?)
  {
    if c.pc.previous.Some? { assert LinkOk(sh.scans, c.pc.previous.value); }
  }

  /** Linking and counting one more waiter, for a scan that is already in place. */
  lemma AttachKeeps(sh: Shared, previous: Option<nat>, f: nat)
    requires ScansOk(sh) && f < |sh.scans|
    requires previous.Some? ==>
               && Ended(sh, previous.value) && sh.scans[f].key.path == sh.scans[previous.value].key.path
               && (sh.scans[previous.value].followup == Some(f) || sh.scans[f].phase.Running?)
    ensures var t := AddWaiters(Link(sh, previous, f), f, 1);
            ScansOk(t) && Grows(sh.scans, t.scans)
  {
    var linked := Link(sh, previous, f);
    if previous.Some? { LinkKeeps(sh, previous.value, f); }
    SameShape(linked, AddWaiters(linked, f, 1));
  }

  lemma JoinKeeps(sh: Shared, c: Caller)
    requires ScansOk(sh) && c.pc.Joining? && Sound(sh.scans, c)
    ensures CanJoin(sh, c.pc.key, c.pc.previous)
    ensures var r := Joined(sh, c.pc.key, c.pc.identity, c.pc.previous);
            ScansOk(r.0) && Grows(sh.scans, r.0.scans) && r.0.scans[r.1].key.path == c.path
  {
    TargetOk(sh, c);
    var target := Target(sh, c.pc.key, c.pc.previous);
    if target.Some? {
      AttachKeeps(sh, c.pc.previous, target.value);
    } else {
      OpenKeeps(sh, c.pc.key, c.pc.identity);
      AttachKeeps(Open(sh, c.pc.key, c.pc.identity), c.pc.previous, |sh.scans|);
    }
  }

  lemma FinishKeeps(sh: Shared, lister: Lister, i: nat, failure: Option<Err>)
    requires ScansOk(sh) && CanFinish(sh, i, failure)
    ensures ScansOk(Finished(sh, lister, i, failure)) && Grows(sh.scans, Finished(sh, lister, i, failure).scans)
  {
    var t := Finished(sh, lister, i, failure);
    forall k | 0 <= k < |t.scans| ensures LinkOk(t.scans, k) {
      assert LinkOk(sh.scans, k);
    }
  }

  lemma CountKeeps(sh: Shared, i: nat, n: int)
    requires ScansOk(sh) && i < |sh.scans|
    ensures ScansOk(AddWaiters(sh, i, n)) && Grows(sh.scans, AddWaiters(sh, i, n).scans)
  {
    SameShape(sh, AddWaiters(sh, i, n));
  }

  lemma CancelKeeps(sh: Shared, i: nat)
    requires ScansOk(sh) && i < |sh.scans|
    ensures ScansOk(MarkCanceled(sh, i)) && Grows(sh.scans, MarkCanceled(sh, i).scans)
  {
    SameShape(sh, MarkCanceled(sh, i));
  }

  lemma ObserveKeeps(sh: Shared, i: nat)
    requires ScansOk(sh) && Ongoing(sh, i)
    ensures ScansOk(Observed(sh, i)) && Grows(sh.scans, Observed(sh, i).scans)
  {
    SameShape(sh, Observed(sh, i));
  }

  lemma SharedKeeps(s: State, lister: Lister, e: Event)
    requires ScansOk(s.shared) && Enabled(s, e) && (forall c :: c in s.callers ==> Sound(s.shared.scans, s.callers[c]))
    ensures ScansOk(SharedAfter(s, lister, e)) && Grows(s.shared.scans, SharedAfter(s, lister, e).scans)
  {
    if e.Join? {
      JoinKeeps(s.shared, s.callers[e.c]);
    } else if e.Leave? {
      CountKeeps(s.shared, s.callers[e.c].pc.visit.scan, -1);
    } else if e.Cancel? {
      CancelKeeps(s.shared, s.callers[e.c].pc.visit.scan);
    } else if e.Observe? {
      ObserveKeeps(s.shared, e.i);
    } else if e.Finish? {
      FinishKeeps(s.shared, lister, e.i, e.failure);
    } else if e.World? {
      OutsideKeeps(s.shared, e.o);
    }
  }

  lemma OutsideKeeps(sh: Shared, o: Outside)
    requires ScansOk(sh)
    ensures ScansOk(AfterOutside(sh, o)) && AfterOutside(sh, o).scans == sh.scans
  {}

  // ---- The waiter count ----

  predicate Attached(c: Caller, i: nat) {
    (c.pc.Waiting? || c.pc.Woken? || c.pc.Validated? || c.pc.Leaving?) && c.pc.visit.scan == i
  }

  /** The callers that are between joining scan `i` and leaving it. */
  function Waiters(callers: map<nat, Caller>, i: nat): set<nat> {
    set c | c in callers && Attached(callers[c], i)
  }

  ghost predicate Counted(s: State) {
    forall i :: 0 <= i < |s.shared.scans| ==> s.shared.scans[i].waiters == |Waiters(s.callers, i)|
  }

  lemma OneCaller(callers: map<nat, Caller>, c: nat, after: Caller, i: nat)
    ensures |Waiters(callers[c := after], i)| ==
            |Waiters(callers, i)| + (if Attached(after, i) then 1 else 0) -
            (if c in callers && Attached(callers[c], i) then 1 else 0)
  {
    var others := Waiters(callers, i) - {c};
    assert Waiters(callers, i) == if c in callers && Attached(callers[c], i) then others + {c} else others;
    assert Waiters(callers[c := after], i) == if Attached(after, i) then others + {c} else others;
  }

  /** How a step moves the number of callers waiting for scan `i`. */
  function Delta(s: State, e: Event, i: nat): int
    requires Enabled(s, e)
  {
    match e
    case Join(c) => if Joined(s.shared, s.callers[c].pc.key, s.callers[c].pc.identity, s.callers[c].pc.previous).1 == i
    then 1 else 0
    case Leave(c) => if s.callers[c].pc.visit.scan == i then -1 else 0
    case _ => 0
  }

  lemma JoinWaiters(sh: Shared, key: Key, identity: nat, previous: Option<nat>, i: nat)
    requires CanJoin(sh, key, previous) && i < |Joined(sh, key, identity, previous).0.scans|
    ensures var r := Joined(sh, key, identity, previous);
            r.0.scans[i].waiters == (if i < |sh.scans| then sh.scans[i].waiters else 0) + (if r.1 == i then 1 else 0)
  {}

  lemma SharedWaiters(s: State, lister: Lister, e: Event, i: nat)
    requires Enabled(s, e) && i < |SharedAfter(s, lister, e).scans|
    ensures SharedAfter(s, lister, e).scans[i].waiters ==
            (if i < |s.shared.scans| then s.shared.scans[i].waiters else 0) + Delta(s, e, i)
  {
    match e
    case Join(c) => JoinWaiters(s.shared, s.callers[c].pc.key, s.callers[c].pc.identity, s.callers[c].pc.previous, i);
    case _ =>
  }

  lemma NobodyWaitsBeyond(s: State, i: nat)
    requires (forall c :: c in s.callers ==> Sound(s.shared.scans, s.callers[c])) && |s.shared.scans| <= i
    ensures Waiters(s.callers, i) == {}
  {}

  lemma CountedKept(s: State, lister: Lister, e: Event)
    requires Counted(s) && Enabled(s, e) && (forall c :: c in s.callers ==> Sound(s.shared.scans, s.callers[c]))
    ensures Counted(Apply(s, lister, e))
  {
    var t := Apply(s, lister, e);
    forall i | 0 <= i < |t.shared.scans| ensures t.shared.scans[i].waiters == |Waiters(t.callers, i)| {
      SharedWaiters(s, lister, e, i);
      if i >= |s.shared.scans| { NobodyWaitsBeyond(s, i); }
      CallersWaiters(s, e, i);
    }
  }

  lemma StepAttached(sh: Shared, c: Caller, p: Private, i: nat)
    requires Allowed(sh, c, p)
    ensures Attached(After(sh, c, p), i) == Attached(c, i)
  {}

  lemma CallersWaiters(s: State, e: Event, i: nat)
    requires Enabled(s, e)
    ensures |Waiters(CallersAfter(s, e), i)| == |Waiters(s.callers, i)| + Delta(s, e, i)
  {
    match e
    case Call(c, _, _, _) => OneCaller(s.callers, c, CallersAfter(s, e)[c], i);
    case Step(c, p) =>
      OneCaller(s.callers, c, After(s.shared, s.callers[c], p), i);
      StepAttached(s.shared, s.callers[c], p, i);
    case Join(c) => OneCaller(s.callers, c, CallersAfter(s, e)[c], i);
    case Leave(c) => OneCaller(s.callers, c, AfterLeave(s.shared, s.callers[c]), i);
    case Cancel(c) => OneCaller(s.callers, c, CallersAfter(s, e)[c], i);
    case _ =>
  }

  // ---- Every reachable state ----

  /** The structural invariant: registration, links, retries, isolation and the waiter count. */
  ghost predicate Safe(s: State) {
    && ScansOk(s.shared)
    && (forall c :: c in s.callers ==> Sound(s.shared.scans, s.callers[c]))
    && Counted(s)
  }

  lemma SafeKept(s: State, lister: Lister, e: Event)
    requires Safe(s) && Enabled(s, e)
    ensures Safe(Apply(s, lister, e)) && Grows(s.shared.scans, Apply(s, lister, e).shared.scans)
  {
    var t := Apply(s, lister, e);
    SharedKeeps(s, lister, e);
    CountedKept(s, lister, e);
    forall c | c in t.callers ensures Sound(t.shared.scans, t.callers[c]) {
      if c in s.callers {
        CallerSound(s, lister, e, c);
      }
    }
  }

  lemma CallerSound(s: State, lister: Lister, e: Event, c: nat)
    requires ScansOk(s.shared) && Enabled(s, e) && c in s.callers && Sound(s.shared.scans, s.callers[c])
    requires Grows(s.shared.scans, SharedAfter(s, lister, e).scans)
    ensures Sound(SharedAfter(s, lister, e).scans, CallersAfter(s, e)[c])
  {
    SoundStable(s.shared.scans, SharedAfter(s, lister, e).scans, s.callers[c]);
    if e.Step? && e.c == c {
      SoundStep(s.shared, s.callers[c], e.p);
    } else if e.Join? && e.c == c {
      JoinKeeps(s.shared, s.callers[c]);
    } else if (e.Leave? || e.Cancel?) && e.c == c {
      SoundLeave(s, lister, e);
    }
  }

  lemma SoundLeave(s: State, lister: Lister, e: Event)
    requires Enabled(s, e) && (e.Leave? || e.Cancel?) && Sound(SharedAfter(s, lister, e).scans, s.callers[e.c])
    ensures Sound(SharedAfter(s, lister, e).scans, CallersAfter(s, e)[e.c])
  {}

  // ---- Links and the order of creation ----

  /**
   A link that joinRecursiveScan sets leads to a scan created later, unless the caller's root now resolves to a key
   whose registered scan is older than the scan the caller waited for.
   */
  lemma BackwardLinkExact(sh: Shared, c: Caller)
    requires ScansOk(sh) && c.pc.Joining? && Sound(sh.scans, c)
    requires c.pc.previous.Some? && sh.scans[c.pc.previous.value].followup.None?
    ensures CanJoin(sh, c.pc.key, c.pc.previous)
    ensures var p := c.pc.previous.value;
            var f := Joined(sh, c.pc.key, c.pc.identity, c.pc.previous).0.scans[p].followup;
            f.Some? && (p < f.value <==> !(c.pc.key in sh.active && sh.active[c.pc.key] < p))
  {
    TargetOk(sh, c);
  }
}
