/**
 Refusals because "the root changed": exactly when a caller gets one although nothing it asked for has moved.
 */
module CoordinatorLifecycle {
  import opened Listing
  import opened Coordinator
  import opened CoordinatorSafety
  import opened CoordinatorFreshness

  /** The scan a caller waited for was opened for another key, or for an earlier directory in the root's place. */
  predicate Alien(sh: Shared, c: Caller) {
    && c.pc.Woken? && c.pc.visit.scan < |sh.scans|
    && var scan := sh.scans[c.pc.visit.scan];
    scan.key != c.pc.visit.key || (c.pc.visit.key.root in sh.ids && scan.identity != sh.ids[c.pc.visit.key.root])
  }

  predicate Refusing(pc: Pc) {
    || ((pc.Leaving? || pc.Canceling? || pc.Left?) && pc.outcome == Fault(LifecycleChanged))
    || pc == Returned(Raised(LifecycleChanged))
  }

  // ---- At the identity check ----

  lemma OtherRootsDiffer(lister: Lister, sh: Shared, c: Caller)
    requires AllHonest(lister, sh) && Sound(sh.scans, c) && c.pc.Woken? && c.pc.visit.key.root in sh.ids
    ensures var scan := sh.scans[c.pc.visit.scan];
            && (scan.key != c.pc.visit.key ==> scan.identity != sh.ids[c.pc.visit.key.root])
            && (scan.key == c.pc.visit.key ==> scan.identity <= sh.ids[c.pc.visit.key.root])
  {
    assert Honest(lister, sh, sh.scans[c.pc.visit.scan]);
  }

  /**
   In every reachable state, a woken caller's identity check refuses if and only if its scan is alien; a scan of the
   caller's own key is then one that was opened before the root was replaced.
   */
  lemma CheckRefusesExactly(lister: Lister, states: seq<State>, events: seq<Event>, c: nat)
    requires IsRun(lister, states, events) && Faithful(lister) && Enabled(states[|events|], Step(c, ReadIdentity(None)))
    ensures var s := states[|events|];
            var visit, scan := s.callers[c].pc.visit, s.shared.scans[s.callers[c].pc.visit.scan];
            && (After(s.shared, s.callers[c], ReadIdentity(None)).pc == Leaving(visit, Fault(LifecycleChanged)) <==>
                Alien(s.shared, s.callers[c]))
            && (Alien(s.shared, s.callers[c]) && scan.key == visit.key ==> scan.identity < s.shared.ids[visit.key.root])
  {
    StateFacts(lister, states, events, |events|);
    var s := states[|events|];
    OtherRootsDiffer(lister, s.shared, s.callers[c]);
    assert OwnError(s.shared.scans[s.callers[c].pc.visit.scan]);
  }

  /** Executors never end with a lifecycle error of their own. */
  ghost predicate OwnError(scan: Scan) {
    scan.phase.Done? && scan.phase.result.Broke? ==> !scan.phase.result.err.LifecycleChanged?
  }

  lemma JoinErrors(sh: Shared, key: Key, identity: nat, previous: Option<nat>, i: nat)
    requires CanJoin(sh, key, previous) && i < |Joined(sh, key, identity, previous).0.scans|
    requires forall k :: 0 <= k < |sh.scans| ==> OwnError(sh.scans[k])
    ensures OwnError(Joined(sh, key, identity, previous).0.scans[i])
  {
    JoinShape(sh, key, identity, previous, i);
  }

  lemma StepErrors(s: State, lister: Lister, e: Event, i: nat)
    requires Enabled(s, e) && i < |SharedAfter(s, lister, e).scans|
    requires forall k :: 0 <= k < |s.shared.scans| ==> OwnError(s.shared.scans[k])
    ensures OwnError(SharedAfter(s, lister, e).scans[i])
  {
    if e.Join? {
      JoinErrors(s.shared, s.callers[e.c].pc.key, s.callers[e.c].pc.identity, s.callers[e.c].pc.previous, i);
    } else {
      assert OwnError(s.shared.scans[i]);
    }
  }

  ghost predicate OwnErrors(sh: Shared) { forall i :: 0 <= i < |sh.scans| ==> OwnError(sh.scans[i]) }

  lemma {:induction false} RunErrors(lister: Lister, states: seq<State>, events: seq<Event>, m: nat)
    requires IsRun(lister, states, events) && m < |states|
    ensures OwnErrors(states[m].shared)
  {
    if m > 0 {
      RunErrors(lister, states, events, m - 1);
      assert IsStep(lister, states[m - 1], events[m - 1], states[m]);
      forall i | 0 <= i < |states[m].shared.scans| ensures OwnError(states[m].shared.scans[i]) {
        StepErrors(states[m - 1], lister, events[m - 1], i);
      }
    }
  }

  /** What every reachable state offers, at any point of a run. */
  lemma StateFacts(lister: Lister, states: seq<State>, events: seq<Event>, m: nat)
    requires IsRun(lister, states, events) && Faithful(lister) && m < |states|
    ensures Safe(states[m]) && AllHonest(lister, states[m].shared) && OwnErrors(states[m].shared)
  {
    RunErrors(lister, states, events, m);
    RunTracked(lister, states[..m + 1], events[..m]);
  }

  /** A caller comes to wait for another key's scan exactly when it inherits the followup of its previous scan. */
  lemma ForeignJoinExactly(sh: Shared, c: Caller)
    requires ScansOk(sh) && c.pc.Joining? && Sound(sh.scans, c)
    ensures CanJoin(sh, c.pc.key, c.pc.previous)
    ensures var r := Joined(sh, c.pc.key, c.pc.identity, c.pc.previous);
            r.0.scans[r.1].key != c.pc.key <==>
            && c.pc.previous.Some? && sh.scans[c.pc.previous.value].followup.Some?
            && sh.scans[sh.scans[c.pc.previous.value].followup.value].key != c.pc.key
  {
    TargetOk(sh, c);
    var r := Joined(sh, c.pc.key, c.pc.identity, c.pc.previous);
    JoinShape(sh, c.pc.key, c.pc.identity, c.pc.previous, r.1);
  }

  // ---- Over a whole call ----

  /** What the caller asked for is where it was: its link, its root and the directory there. */
  predicate Unmoved(sh: Shared, root: string, key: Key, identity: nat) {
    Canonical(sh, root) == key.root && InForce(sh, key.root, identity)
  }

  predicate Steadfast(c: Caller, key: Key, identity: nat) {
    && c.path == key.path
    && (c.pc.Resolved? || c.pc.Joining? || c.pc.Rechecking? ==> c.pc.key == key)
    && (c.pc.Joining? ==> c.pc.identity == identity)
    && (Visiting(c.pc) ==> c.pc.visit.key == key && c.pc.visit.identity == identity)
  }

  predicate GaveUp(pc: Pc) { pc.Returned? && pc.result.Raised? && IsContextError(pc.result.err) }

  predicate IsAlienRead(s: State, e: Event, c: nat) {
    e == Step(c, ReadIdentity(None)) && c in s.callers && Alien(s.shared, s.callers[c])
  }

  lemma PrivateStep(lister: Lister, sh: Shared, c: Caller, p: Private, key: Key, identity: nat)
    requires AllHonest(lister, sh) && Sound(sh.scans, c) && Allowed(sh, c, p)
    requires OwnErrors(sh)
    requires Unmoved(sh, c.root, key, identity) && Steadfast(c, key, identity)
    ensures Steadfast(After(sh, c, p), key, identity)
    ensures var alien := p == ReadIdentity(None) && Alien(sh, c);
            && (Refusing(After(sh, c, p).pc) ==> Refusing(c.pc) || alien)
            && (Refusing(c.pc) || alien ==> Refusing(After(sh, c, p).pc) || GaveUp(After(sh, c, p).pc))
            && (GaveUp(c.pc) ==> GaveUp(After(sh, c, p).pc))
  {
    StaysSteadfast(sh, c, p, key, identity);
    if p.ReadIdentity? {
      ReadRefuses(lister, sh, c, p.failure, key, identity);
    } else {
      OthersRefuse(sh, c, p, key, identity);
    }
  }

  lemma StaysSteadfast(sh: Shared, c: Caller, p: Private, key: Key, identity: nat)
    requires Allowed(sh, c, p) && Unmoved(sh, c.root, key, identity) && Steadfast(c, key, identity)
    ensures Steadfast(After(sh, c, p), key, identity)
  {}

  lemma ReadRefuses(lister: Lister, sh: Shared, c: Caller, failure: Option<Err>, key: Key, identity: nat)
    requires AllHonest(lister, sh) && Sound(sh.scans, c) && Allowed(sh, c, ReadIdentity(failure))
    requires OwnError(sh.scans[c.pc.visit.scan])
    ensures Refusing(After(sh, c, ReadIdentity(failure)).pc) <==> failure.None? && Alien(sh, c)
  {
    if failure.None? { OtherRootsDiffer(lister, sh, c); }
  }

  lemma OthersRefuse(sh: Shared, c: Caller, p: Private, key: Key, identity: nat)
    requires Sound(sh.scans, c) && Allowed(sh, c, p) && !p.ReadIdentity?
    requires Unmoved(sh, c.root, key, identity) && Steadfast(c, key, identity)
    ensures Refusing(After(sh, c, p).pc) ==> Refusing(c.pc)
    ensures Refusing(c.pc) ==> Refusing(After(sh, c, p).pc) || GaveUp(After(sh, c, p).pc)
    ensures GaveUp(c.pc) ==> GaveUp(After(sh, c, p).pc)
  {}

  lemma AnyStep(lister: Lister, s: State, e: Event, c: nat, key: Key, identity: nat)
    requires Enabled(s, e) && c in s.callers && AllHonest(lister, s.shared) && Sound(s.shared.scans, s.callers[c])
    requires OwnErrors(s.shared)
    requires Unmoved(s.shared, s.callers[c].root, key, identity) && Steadfast(s.callers[c], key, identity)
    ensures c in CallersAfter(s, e) && Steadfast(CallersAfter(s, e)[c], key, identity)
    ensures CallersAfter(s, e)[c].root == s.callers[c].root
    ensures var before, after := s.callers[c].pc, CallersAfter(s, e)[c].pc;
            && (Refusing(after) ==> Refusing(before) || IsAlienRead(s, e, c))
            && (Refusing(before) || IsAlienRead(s, e, c) ==> Refusing(after) || GaveUp(after))
            && (GaveUp(before) ==> GaveUp(after))
  {
    if e.Step? && e.c == c { PrivateStep(lister, s.shared, s.callers[c], e.p, key, identity); }
  }

  /** From the call on, whatever the caller asked for has not moved. */
  ghost predicate NeverMoved(states: seq<State>, c: nat, key: Key, identity: nat) {
    forall m :: 0 <= m < |states| && c in states[m].callers ==>
                  states[m].callers[c].path == key.path
                  && Unmoved(states[m].shared, states[m].callers[c].root, key, identity)
  }

  /** Before step `m` the caller has checked an alien scan. */
  ghost predicate ReadAlien(states: seq<State>, events: seq<Event>, c: nat, m: nat)
    requires m <= |events| < |states|
  {
    exists k :: 0 <= k < m && IsAlienRead(states[k], events[k], c)
  }

  ghost predicate Followed(states: seq<State>, events: seq<Event>, c: nat, key: Key, identity: nat, m: nat)
    requires m <= |events| < |states|
  {
    if c in states[m].callers then
      var caller := states[m].callers[c];
      && Steadfast(caller, key, identity)
      && (Refusing(caller.pc) ==> ReadAlien(states, events, c, m))
      && (ReadAlien(states, events, c, m) ==> Refusing(caller.pc) || GaveUp(caller.pc))
    else !ReadAlien(states, events, c, m)
  }

  lemma {:induction false} CallFollowed(lister: Lister, states: seq<State>, events: seq<Event>, c: nat, key: Key,
                                        identity: nat, m: nat)
    requires IsRun(lister, states, events) && Faithful(lister) && NeverMoved(states, c, key, identity) && m < |states|
    ensures Followed(states, events, c, key, identity, m)
  {
    if m > 0 {
      CallFollowed(lister, states, events, c, key, identity, m - 1);
      FollowStep(lister, states, events, c, key, identity, m - 1);
    }
  }

  lemma FollowStep(lister: Lister, states: seq<State>, events: seq<Event>, c: nat, key: Key, identity: nat, m: nat)
    requires IsRun(lister, states, events) && Faithful(lister) && NeverMoved(states, c, key, identity) && m < |events|
    requires Followed(states, events, c, key, identity, m)
    ensures Followed(states, events, c, key, identity, m + 1)
  {
    var s, e := states[m], events[m];
    assert IsStep(lister, s, e, states[m + 1]);
    assert ReadAlien(states, events, c, m + 1) <==> ReadAlien(states, events, c, m) || IsAlienRead(s, e, c);
    if c in s.callers {
      StateFacts(lister, states, events, m);
      AnyStep(lister, s, e, c, key, identity);
    }
  }

  // ---- Decided when the caller joins ----

  /** At this step the caller is given a scan of another key or of another directory than its own. */
  predicate JoinsAlien(s: State, e: Event, c: nat, key: Key, identity: nat) {
    && e == Join(c) && c in s.callers && s.callers[c].pc.Joining?
    && CanJoin(s.shared, s.callers[c].pc.key, s.callers[c].pc.previous)
    && var r := Joined(s.shared, s.callers[c].pc.key, s.callers[c].pc.identity, s.callers[c].pc.previous);
    r.0.scans[r.1].key != key || r.0.scans[r.1].identity != identity
  }

  /** The scan a visiting caller waits for was given to it at step `k`, its last join. */
  ghost predicate GivenAt(states: seq<State>, events: seq<Event>, c: nat, k: nat, m: nat)
    requires |states| == |events| + 1
  {
    && k < m < |states| && events[k] == Join(c) && (forall i :: k < i < m ==> events[i] != Join(c))
    && c in states[m].callers && c in states[k + 1].callers
    && Visiting(states[m].callers[c].pc) && states[k + 1].callers[c].pc.Waiting?
    && states[m].callers[c].pc.visit == states[k + 1].callers[c].pc.visit
  }

  lemma VisitStep(s: State, e: Event, c: nat)
    requires Enabled(s, e) && c in CallersAfter(s, e) && Visiting(CallersAfter(s, e)[c].pc) && e != Join(c)
    ensures c in s.callers && Visiting(s.callers[c].pc) && CallersAfter(s, e)[c].pc.visit == s.callers[c].pc.visit
  {}

  lemma GivenLater(states: seq<State>, events: seq<Event>, c: nat, k: nat, m: nat)
    requires |states| == |events| + 1 && m + 1 < |states| && GivenAt(states, events, c, k, m) && events[m] != Join(c)
    requires c in states[m + 1].callers && Visiting(states[m + 1].callers[c].pc)
    requires states[m + 1].callers[c].pc.visit == states[m].callers[c].pc.visit
    ensures GivenAt(states, events, c, k, m + 1)
  {}

  lemma {:induction false} LastJoin(lister: Lister, states: seq<State>, events: seq<Event>, c: nat,
                                    m: nat) returns (k: nat)
    requires IsRun(lister, states, events) && m < |states| && c in states[m].callers
    requires Visiting(states[m].callers[c].pc)
    ensures GivenAt(states, events, c, k, m)
  {
    assert m > 0;
    assert IsStep(lister, states[m - 1], events[m - 1], states[m]);
    if events[m - 1] == Join(c) {
      k := m - 1;
    } else {
      VisitStep(states[m - 1], events[m - 1], c);
      k := LastJoin(lister, states, events, c, m - 1);
      GivenLater(states, events, c, k, m - 1);
    }
  }

  /** What was joined is what is read. */
  lemma AlienSinceJoin(lister: Lister, states: seq<State>, events: seq<Event>, c: nat, key: Key, identity: nat, k: nat,
                       m: nat)
    requires IsRun(lister, states, events) && Faithful(lister) && GivenAt(states, events, c, k, m)
    requires states[m].callers[c].pc.Woken? && states[m].callers[c].pc.visit.key == key
    requires InForce(states[m].shared, key.root, identity)
    ensures Alien(states[m].shared, states[m].callers[c]) <==> JoinsAlien(states[k], events[k], c, key, identity)
  {
    assert IsStep(lister, states[k], events[k], states[k + 1]);
    ScansStay(lister, states, events, k + 1, m);
  }

  /** The caller was given an alien scan and has read it: no other join came between. */
  ghost predicate ReadJoinedAlien(states: seq<State>, events: seq<Event>, c: nat, key: Key, identity: nat, k: nat,
                                  m: nat)
    requires |states| == |events| + 1
  {
    && m < |events| && GivenAt(states, events, c, k, m) && JoinsAlien(states[k], events[k], c, key, identity)
    && events[m] == Step(c, ReadIdentity(None))
  }

  lemma ReadIffJoined(lister: Lister, states: seq<State>, events: seq<Event>, c: nat, key: Key, identity: nat)
    requires IsRun(lister, states, events) && Faithful(lister) && NeverMoved(states, c, key, identity)
    ensures ReadAlien(states, events, c, |events|) <==>
            exists k: nat, m: nat :: ReadJoinedAlien(states, events, c, key, identity, k, m)
  {
    if ReadAlien(states, events, c, |events|) {
      var m :| 0 <= m < |events| && IsAlienRead(states[m], events[m], c);
      VisitIsOwn(lister, states, events, c, key, identity, m);
      var k := LastJoin(lister, states, events, c, m);
      AlienSinceJoin(lister, states, events, c, key, identity, k, m);
      assert ReadJoinedAlien(states, events, c, key, identity, k, m);
    }
    if k: nat, m: nat :| ReadJoinedAlien(states, events, c, key, identity, k, m) {
      assert IsStep(lister, states[m], events[m], states[m + 1]);
      VisitIsOwn(lister, states, events, c, key, identity, m);
      AlienSinceJoin(lister, states, events, c, key, identity, k, m);
      assert IsAlienRead(states[m], events[m], c);
    }
  }

  lemma VisitIsOwn(lister: Lister, states: seq<State>, events: seq<Event>, c: nat, key: Key, identity: nat, m: nat)
    requires IsRun(lister, states, events) && Faithful(lister) && NeverMoved(states, c, key, identity)
    requires m < |states| && c in states[m].callers && states[m].callers[c].pc.Woken?
    ensures states[m].callers[c].pc.visit.key == key && InForce(states[m].shared, key.root, identity)
  {
    CallFollowed(lister, states, events, c, key, identity, m);
  }

  /**
   Over every run: a caller whose link, root and directory never moved during its call, and whose own context did not
   end it, is refused for a changed root if and only if some join gave it a scan of another key or of another
   directory, and it read that scan.
   */
  lemma RefusedExactly(lister: Lister, states: seq<State>, events: seq<Event>, c: nat, key: Key, identity: nat)
    requires IsRun(lister, states, events) && Faithful(lister) && NeverMoved(states, c, key, identity)
    requires c in states[|events|].callers && states[|events|].callers[c].pc.Returned?
    requires !GaveUp(states[|events|].callers[c].pc)
    ensures states[|events|].callers[c].pc.result == Raised(LifecycleChanged) <==>
            exists k: nat, m: nat :: ReadJoinedAlien(states, events, c, key, identity, k, m)
  {
    CallFollowed(lister, states, events, c, key, identity, |events|);
    ReadIffJoined(lister, states, events, c, key, identity);
  }
}
