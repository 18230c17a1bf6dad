/** What every call of ListWithProgress and of the recursive ListSnapshot returns, and why. */
module CoordinatorResults {
  import opened Listing
  import opened Coordinator
  import opened CoordinatorSafety
  import opened CoordinatorFreshness

  // ---- Where listings and errors come from ----

  /** Scan `k` did not end among the first `since` executors. */
  predicate Recent(sh: Shared, k: nat, since: nat) {
    k < |sh.scans| && (sh.scans[k].phase.Done? ==> since <= sh.scans[k].phase.order)
  }

  predicate EndedWith(sh: Shared, k: nat, result: ScanResult) { Ended(sh, k) && sh.scans[k].phase.result == result }

  /** The root has been invalidated since the scan was opened. */
  predicate Outdated(sh: Shared, k: nat) {
    k < |sh.scans| && sh.scans[k].generation < Gen(sh, sh.scans[k].key.root)
  }

  predicate Delivers(sh: Shared, k: nat, key: Key, entries: seq<FileEntry>, isDirty: bool) {
    EndedWith(sh, k, Listed(entries)) && sh.scans[k].key == key && (isDirty ==> Outdated(sh, k))
  }

  /** The only reasons to go round again: the executor was cut short, or its listing is too old to be final. */
  predicate WorthRetrying(sh: Shared, mode: Mode, k: nat) {
    && Ended(sh, k)
    && match sh.scans[k].phase.result
       case Broke(err) => IsContextError(err)
       case Listed(_) => mode.Progress? && Outdated(sh, k)
  }

  predicate HasOutcome(pc: Pc) { pc.Leaving? || pc.Canceling? || pc.Left? || pc.Confirming? || pc.Rechecking? }

  /** An interim listing, shown while the caller goes on. */
  ghost predicate Shown(sh: Shared, path: string, since: nat, entries: seq<FileEntry>) {
    exists k: nat :: Recent(sh, k, since) && sh.scans[k].key.path == path && EndedWith(sh, k, Listed(entries))
                     && Outdated(sh, k)
  }

  ghost predicate AllShown(sh: Shared, mode: Mode, path: string, since: nat, interim: seq<seq<FileEntry>>) {
    (interim != [] ==> mode.Progress?) && forall n :: 0 <= n < |interim| ==> Shown(sh, path, since, interim[n])
  }

  ghost predicate ResultExplained(sh: Shared, c: Caller, since: nat, errors: set<Err>, result: Result) {
    match result
    case Final(key, entries, isFresh) =>
      exists k: nat :: Recent(sh, k, since) && Delivers(sh, k, key, entries, !isFresh)
    case Raised(err) =>
      || err.LifecycleChanged? || c.expired == Some(err) || err in errors
      || exists k: nat :: Recent(sh, k, since) && sh.scans[k].key.path == c.path && EndedWith(sh, k, Broke(err))
                          && !IsContextError(err)
  }

  /** `errors` are those the caller got from reading identities itself. */
  ghost predicate Explained(sh: Shared, c: Caller, since: nat, errors: set<Err>) {
    var pc := c.pc;
    && (pc.Idle? || pc.Resolved? || pc.Joining? ==>
          pc.previous.Some? ==> Recent(sh, pc.previous.value, since) && WorthRetrying(sh, c.mode, pc.previous.value))
    && (Visiting(pc) ==> Recent(sh, pc.visit.scan, since))
    && (HasOutcome(pc) && pc.outcome.Snap? ==>
          Delivers(sh, pc.visit.scan, pc.visit.key, pc.outcome.entries, pc.outcome.dirty))
    && (HasOutcome(pc) && pc.outcome.Fault? ==>
          || pc.outcome.err.LifecycleChanged? || c.expired == Some(pc.outcome.err) || pc.outcome.err in errors
          || EndedWith(sh, pc.visit.scan, Broke(pc.outcome.err)))
    && ((pc.Confirming? || pc.Rechecking?) && pc.outcome.Fault? ==>
          IsContextError(pc.outcome.err) && EndedWith(sh, pc.visit.scan, Broke(pc.outcome.err)))
    && (pc.Returned? ==> ResultExplained(sh, c, since, errors, pc.result))
    && AllShown(sh, c.mode, c.path, since, c.interim)
  }

  // ---- Steps of others ----

  /** Scans keep what they ended with, and those that end now end after all that have ended. */
  ghost predicate Later(before: Shared, after: Shared) {
    && Grows(before.scans, after.scans)
    && (forall root :: Gen(before, root) <= Gen(after, root))
    && (forall k :: 0 <= k < |before.scans| && before.scans[k].phase.Running? && after.scans[k].phase.Done? ==>
                      before.finished <= after.scans[k].phase.order)
    && before.finished <= after.finished
  }

  lemma StepLater(s: State, lister: Lister, e: Event)
    requires Safe(s) && Enabled(s, e)
    ensures Later(s.shared, SharedAfter(s, lister, e))
  {
    var t := SharedAfter(s, lister, e);
    SafeKept(s, lister, e);
    forall root ensures Gen(s.shared, root) <= Gen(t, root) { StepGens(lister, s, e, root); }
    forall k | 0 <= k < |s.shared.scans| && s.shared.scans[k].phase.Running? && t.scans[k].phase.Done?
      ensures s.shared.finished <= t.scans[k].phase.order
    {
      NewlyDone(s, lister, e, k);
    }
    FinishedGrows(s, lister, e);
  }

  lemma NewlyDone(s: State, lister: Lister, e: Event, k: nat)
    requires Enabled(s, e) && k < |s.shared.scans| && k < |SharedAfter(s, lister, e).scans|
    requires s.shared.scans[k].phase.Running? && SharedAfter(s, lister, e).scans[k].phase.Done?
    ensures s.shared.finished <= SharedAfter(s, lister, e).scans[k].phase.order
  {
    if e.Join? {
      JoinShape(s.shared, s.callers[e.c].pc.key, s.callers[e.c].pc.identity, s.callers[e.c].pc.previous, k);
    }
  }

  lemma FinishedGrows(s: State, lister: Lister, e: Event)
    requires Enabled(s, e)
    ensures s.shared.finished <= SharedAfter(s, lister, e).finished
  {
    if e.Join? { JoinFinishesNone(s.shared, s.callers[e.c].pc); }
  }

  lemma JoinFinishesNone(sh: Shared, pc: Pc)
    requires pc.Joining? && CanJoin(sh, pc.key, pc.previous)
    ensures Joined(sh, pc.key, pc.identity, pc.previous).0.finished == sh.finished
  {}

  lemma ScanStays(before: Shared, after: Shared, k: nat, since: nat)
    requires Later(before, after) && since <= before.finished && Recent(before, k, since)
    ensures Recent(after, k, since) && after.scans[k].key == before.scans[k].key
    ensures Ended(before, k) ==> Ended(after, k) && after.scans[k].phase == before.scans[k].phase
    ensures Outdated(before, k) ==> Outdated(after, k)
  {
    assert Gen(before, before.scans[k].key.root) <= Gen(after, before.scans[k].key.root);
  }

  lemma ExplainedStays(before: Shared, after: Shared, c: Caller, since: nat, errors: set<Err>)
    requires Later(before, after) && since <= before.finished && Explained(before, c, since, errors)
    ensures Explained(after, c, since, errors)
  {
    var pc := c.pc;
    if (pc.Idle? || pc.Resolved? || pc.Joining?) && pc.previous.Some? {
      ScanStays(before, after, pc.previous.value, since);
    }
    if Visiting(pc) { ScanStays(before, after, pc.visit.scan, since); }
    if pc.Returned? { ResultStays(before, after, c, since, errors, pc.result); }
    AllShownStays(before, after, c.mode, c.path, since, c.interim);
  }

  lemma AllShownStays(before: Shared, after: Shared, mode: Mode, path: string, since: nat, interim: seq<seq<FileEntry>>)
    requires Later(before, after) && since <= before.finished && AllShown(before, mode, path, since, interim)
    ensures AllShown(after, mode, path, since, interim)
  {
    forall n | 0 <= n < |interim| ensures Shown(after, path, since, interim[n]) {
      ShownStays(before, after, path, since, interim[n]);
    }
  }

  lemma ShownStays(before: Shared, after: Shared, path: string, since: nat, entries: seq<FileEntry>)
    requires Later(before, after) && since <= before.finished && Shown(before, path, since, entries)
    ensures Shown(after, path, since, entries)
  {
    var k: nat :| Recent(before, k, since) && before.scans[k].key.path == path
                  && EndedWith(before, k, Listed(entries)) && Outdated(before, k);
    ScanStays(before, after, k, since);
  }

  lemma ResultStays(before: Shared, after: Shared, c: Caller, since: nat, errors: set<Err>, result: Result)
    requires Later(before, after) && since <= before.finished && ResultExplained(before, c, since, errors, result)
    ensures ResultExplained(after, c, since, errors, result)
  {
    match result
    case Final(key, entries, isFresh) =>
      var k: nat :| Recent(before, k, since) && Delivers(before, k, key, entries, !isFresh);
      ScanStays(before, after, k, since);
      assert Delivers(after, k, key, entries, !isFresh);
    case Raised(err) =>
      if k: nat :| Recent(before, k, since) && before.scans[k].key.path == c.path && EndedWith(before, k, Broke(err))
                   && !IsContextError(err) {
        ScanStays(before, after, k, since);
        assert EndedWith(after, k, Broke(err));
      }
  }

  // ---- The caller's own steps ----

  /** The error a step reports from reading identities. */
  predicate ReadFails(p: Private, err: Err) {
    (p.Identify? || p.ReadIdentity? || p.Confirm?) && p.failure == Some(err)
  }

  lemma ApproachExplained(sh: Shared, c: Caller, p: Private, since: nat, errors: set<Err>)
    requires Sound(sh.scans, c) && Allowed(sh, c, p) && IsApproach(p) && Explained(sh, c, since, errors)
    requires forall err :: ReadFails(p, err) ==> err in errors
    ensures Explained(sh, After(sh, c, p), since, errors)
  {}

  lemma ReadingExplained(lister: Lister, sh: Shared, c: Caller, p: Private, since: nat, errors: set<Err>)
    requires AllHonest(lister, sh) && Informed(sh, c) && Sound(sh.scans, c) && Allowed(sh, c, p)
    requires (p.ReadIdentity? || p.CheckGeneration?) && Explained(sh, c, since, errors)
    requires forall err :: ReadFails(p, err) ==> err in errors
    ensures Explained(sh, After(sh, c, p), since, errors)
  {
    assert Honest(lister, sh, sh.scans[c.pc.visit.scan]);
  }

  lemma SettleExplained(sh: Shared, c: Caller, shown: bool, since: nat, errors: set<Err>)
    requires Sound(sh.scans, c) && Allowed(sh, c, Settle(shown)) && Explained(sh, c, since, errors)
    requires forall err :: err in errors ==> !IsContextError(err)
    ensures Explained(sh, After(sh, c, Settle(shown)), since, errors)
  {
    var after := After(sh, c, Settle(shown));
    if after.interim != c.interim {
      assert Shown(sh, c.path, since, c.pc.outcome.entries);
    }
    if after.pc.Returned? && c.expired.None? && c.pc.outcome.err !in errors {
      assert c.pc.outcome.err.LifecycleChanged? || EndedWith(sh, c.pc.visit.scan, Broke(c.pc.outcome.err));
    }
  }

  lemma ConfirmExplained(sh: Shared, c: Caller, p: Private, since: nat, errors: set<Err>)
    requires Sound(sh.scans, c) && Allowed(sh, c, p) && (p.Recheck? || p.Confirm?) && Explained(sh, c, since, errors)
    requires forall err :: ReadFails(p, err) ==> err in errors
    ensures Explained(sh, After(sh, c, p), since, errors)
  {}

  lemma OwnExplained(lister: Lister, sh: Shared, c: Caller, p: Private, since: nat, errors: set<Err>)
    requires AllHonest(lister, sh) && Informed(sh, c) && Sound(sh.scans, c) && Allowed(sh, c, p)
    requires Explained(sh, c, since, errors)
    requires forall err :: ReadFails(p, err) ==> err in errors
    requires forall err :: err in errors ==> !IsContextError(err)
    ensures Explained(sh, After(sh, c, p), since, errors)
  {
    if IsApproach(p) {
      ApproachExplained(sh, c, p, since, errors);
    } else if p.ReadIdentity? || p.CheckGeneration? {
      ReadingExplained(lister, sh, c, p, since, errors);
    } else if p.Settle? {
      SettleExplained(sh, c, p.shown, since, errors);
    } else {
      ConfirmExplained(sh, c, p, since, errors);
    }
  }

  /** A caller is given a scan that runs, or the followup of a scan that ended during its call. */
  lemma JoinRecent(sh: Shared, c: Caller, since: nat, errors: set<Err>)
    requires ScansOk(sh) && c.pc.Joining? && Sound(sh.scans, c) && Explained(sh, c, since, errors)
    ensures CanJoin(sh, c.pc.key, c.pc.previous)
    ensures var r := Joined(sh, c.pc.key, c.pc.identity, c.pc.previous); Recent(r.0, r.1, since)
  {
    TargetOk(sh, c);
    var r := Joined(sh, c.pc.key, c.pc.identity, c.pc.previous);
    JoinShape(sh, c.pc.key, c.pc.identity, c.pc.previous, r.1);
    if c.pc.previous.Some? { assert LinkOk(sh.scans, c.pc.previous.value); }
  }

  lemma MovedExplained(s: State, lister: Lister, e: Event, since: nat, errors: set<Err>)
    requires Safe(s) && Enabled(s, e) && (e.Join? || e.Leave? || e.Cancel?) && since <= s.shared.finished
    requires Explained(s.shared, s.callers[e.c], since, errors)
    ensures Explained(SharedAfter(s, lister, e), CallersAfter(s, e)[e.c], since, errors)
  {
    StepLater(s, lister, e);
    ExplainedStays(s.shared, SharedAfter(s, lister, e), s.callers[e.c], since, errors);
    if e.Join? { JoinRecent(s.shared, s.callers[e.c], since, errors); }
  }

  // ---- Over whole calls ----

  /** What reading identities has failed with, for this caller. */
  function ReadErrors(events: seq<Event>, c: nat): set<Err> {
    set m | 0 <= m < |events| && events[m].Step? && events[m].c == c
            && (events[m].p.Identify? || events[m].p.ReadIdentity? || events[m].p.Confirm?)
            && events[m].p.failure.Some? && events[m].p.failure.value.Failed? :: events[m].p.failure.value
  }

  lemma StepExplained(lister: Lister, states: seq<State>, events: seq<Event>, n: nat, c: nat, since: nat)
    requires IsRun(lister, states, events) && n < |events| && Tracked(lister, states[..n + 1])
    requires c in states[n].callers && since <= states[n].shared.finished
    requires Explained(states[n].shared, states[n].callers[c], since, ReadErrors(events, c))
    ensures c in states[n + 1].callers
    ensures Explained(states[n + 1].shared, states[n + 1].callers[c], since, ReadErrors(events, c))
  {
    var s, e, errors := states[n], events[n], ReadErrors(events, c);
    assert IsStep(lister, s, e, states[n + 1]);
    assert s == states[..n + 1][n];
    if e.Step? && e.c == c {
      forall err | ReadFails(e.p, err) ensures err in errors { assert events[n].p.failure.value == err; }
      OwnExplained(lister, s.shared, s.callers[c], e.p, since, errors);
    } else if (e.Join? || e.Leave? || e.Cancel?) && e.c == c {
      MovedExplained(s, lister, e, since, errors);
    } else {
      StepLater(s, lister, e);
      ExplainedStays(s.shared, states[n + 1].shared, s.callers[c], since, errors);
    }
  }

  /** From any state in which the call has not been made. */
  lemma {:induction false} RunExplained(lister: Lister, states: seq<State>, events: seq<Event>, j: nat, n: nat, c: nat)
    requires IsRun(lister, states, events) && Faithful(lister) && j <= n < |states| && c !in states[j].callers
    ensures states[j].shared.finished <= states[n].shared.finished
    ensures c in states[n].callers ==>
              Explained(states[n].shared, states[n].callers[c], states[j].shared.finished, ReadErrors(events, c))
    decreases n - j
  {
    if j < n {
      RunExplained(lister, states, events, j, n - 1, c);
      RunTracked(lister, states[..n], events[..n - 1]);
      var s, e := states[n - 1], events[n - 1];
      assert IsStep(lister, s, e, states[n]);
      FinishedGrows(s, lister, e);
      if c in s.callers { StepExplained(lister, states, events, n - 1, c, states[j].shared.finished); }
    }
  }

  /**
   Every listing that a call returns, fresh or not, is what a scan of the same key ended with after the call began; the
   root of a stale one has been invalidated since that scan was opened. An error other than the caller's own context
   error or a changed root is what reading identities failed with, or what a scan of the path ended with during the
   call.
   */
  lemma ResultsExplained(lister: Lister, states: seq<State>, events: seq<Event>, j: nat, c: nat)
    requires IsRun(lister, states, events) && Faithful(lister) && j < |states| && c !in states[j].callers
    requires c in states[|events|].callers && states[|events|].callers[c].pc.Returned?
    ensures var s := states[|events|];
            match s.callers[c].pc.result
            case Final(key, entries, isFresh) =>
              exists k: nat ::
                && Ended(s.shared, k) && !Ended(states[j].shared, k) && s.shared.scans[k].key == key
                && s.shared.scans[k].phase.result == Listed(entries)
                && (!isFresh ==> s.shared.scans[k].generation < Gen(s.shared, key.root))
            case Raised(err) =>
              || err.LifecycleChanged? || s.callers[c].expired == Some(err) || err in ReadErrors(events, c)
              || exists k: nat ::
                   && Ended(s.shared, k) && !Ended(states[j].shared, k)
                   && s.shared.scans[k].key.path == s.callers[c].path
                   && s.shared.scans[k].phase.result == Broke(err) && !IsContextError(err)
  {
    var s := states[|events|];
    RunExplained(lister, states, events, j, |events|, c);
    forall k: nat | Recent(s.shared, k, states[j].shared.finished) ensures !Ended(states[j].shared, k) {
      RecentEndedLater(lister, states, events, j, k);
    }
  }

  lemma RecentEndedLater(lister: Lister, states: seq<State>, events: seq<Event>, j: nat, k: nat)
    requires IsRun(lister, states, events) && Faithful(lister) && j < |states|
    requires Recent(states[|events|].shared, k, states[j].shared.finished)
    ensures !Ended(states[j].shared, k)
  {
    RunTracked(lister, states[..j + 1], events[..j]);
    assert states[j] == states[..j + 1][j];
    ScansStay(lister, states, events, j, |events|);
  }

  /** ListWithProgress shows outdated listings of scans that ended during the call; ListSnapshot shows none. */
  lemma InterimExplained(lister: Lister, states: seq<State>, events: seq<Event>, j: nat, c: nat, n: nat)
    requires IsRun(lister, states, events) && Faithful(lister) && j < |states| && c !in states[j].callers
    requires c in states[|events|].callers && n < |states[|events|].callers[c].interim|
    ensures var s := states[|events|];
            && s.callers[c].mode.Progress?
            && exists k: nat ::
                 && Ended(s.shared, k) && !Ended(states[j].shared, k) && s.shared.scans[k].key.path == s.callers[c].path
                 && s.shared.scans[k].phase.result == Listed(s.callers[c].interim[n])
                 && s.shared.scans[k].generation < Gen(s.shared, s.shared.scans[k].key.root)
  {
    var s := states[|events|];
    RunExplained(lister, states, events, j, |events|, c);
    assert Shown(s.shared, s.callers[c].path, states[j].shared.finished, s.callers[c].interim[n]);
    forall k: nat | Recent(s.shared, k, states[j].shared.finished) ensures !Ended(states[j].shared, k) {
      RecentEndedLater(lister, states, events, j, k);
    }
  }

  /**
   A caller goes round again only after an executor that was cut short, or, in ListWithProgress, after a listing that
   was invalidated; every scan it comes to wait for ends, if it has ended, after the call began.
   */
  lemma RetriesExplained(lister: Lister, states: seq<State>, events: seq<Event>, j: nat, c: nat)
    requires IsRun(lister, states, events) && Faithful(lister) && j < |states| && c !in states[j].callers
    requires c in states[|events|].callers
    ensures var s := states[|events|];
            var pc := s.callers[c].pc;
            && ((pc.Idle? || pc.Resolved? || pc.Joining?) && pc.previous.Some? ==>
                  && Ended(s.shared, pc.previous.value) && !Ended(states[j].shared, pc.previous.value)
                  && match s.shared.scans[pc.previous.value].phase.result
                     case Broke(err) => IsContextError(err)
                     case Listed(_) =>
                       var scan := s.shared.scans[pc.previous.value];
                       s.callers[c].mode.Progress? && scan.generation < Gen(s.shared, scan.key.root))
            && (Visiting(pc) ==> !Ended(states[j].shared, pc.visit.scan))
  {
    var s := states[|events|];
    RunExplained(lister, states, events, j, |events|, c);
    forall k: nat | Recent(s.shared, k, states[j].shared.finished) ensures !Ended(states[j].shared, k) {
      RecentEndedLater(lister, states, events, j, k);
    }
  }

  // ---- The last check of a call ----

  ghost predicate ReturnsListing(before: State, after: State, c: nat) {
    && c in before.callers && !before.callers[c].pc.Returned?
    && c in after.callers && after.callers[c].pc.Returned? && after.callers[c].pc.result.Final?
  }

  /**
   At every step of every run: a call returns a listing if and only if its last check finds the root's name and the
   directory there as they were identified, and the listing is clean, or good enough for a ListSnapshot call whose
   context has not ended.
   */
  lemma ReturnsExactly(lister: Lister, states: seq<State>, events: seq<Event>, m: nat, c: nat)
    requires IsRun(lister, states, events) && m < |events| && c in states[m].callers
    ensures var caller := states[m].callers[c];
            ReturnsListing(states[m], states[m + 1], c) <==>
            && events[m] == Step(c, Confirm(None)) && caller.pc.Rechecking? && caller.pc.key == caller.pc.visit.key
            && InForce(states[m].shared, caller.pc.visit.key.root, caller.pc.visit.identity)
            && caller.pc.outcome.Snap?
            && if caller.mode == Snapshot then caller.expired == None else !caller.pc.outcome.dirty
    ensures ReturnsListing(states[m], states[m + 1], c) ==>
              var pc := states[m].callers[c].pc;
              states[m + 1].callers[c].pc.result == Final(pc.visit.key, pc.outcome.entries, !pc.outcome.dirty)
  {
    assert IsStep(lister, states[m], events[m], states[m + 1]);
  }

  /** At state `i` the caller's root was found to lead to this key, after its scan had ended. */
  ghost predicate RecheckedAt(states: seq<State>, i: nat, c: nat, visit: Visit, outcome: Outcome, key: Key) {
    && i < |states| && c in states[i].callers && states[i].callers[c].pc == Confirming(visit, outcome)
    && Canonical(states[i].shared, states[i].callers[c].root) == key.root && states[i].callers[c].path == key.path
  }

  lemma {:induction false} Rechecked(lister: Lister, states: seq<State>, events: seq<Event>, n: nat,
                                     c: nat) returns (i: nat)
    requires IsRun(lister, states, events) && n < |states| && c in states[n].callers
    requires states[n].callers[c].pc.Rechecking?
    ensures var pc := states[n].callers[c].pc;
            i < n && RecheckedAt(states, i, c, pc.visit, pc.outcome, pc.key)
  {
    assert n > 0;
    var s, e := states[n - 1], events[n - 1];
    assert IsStep(lister, s, e, states[n]);
    if e == Step(c, Recheck) { i := n - 1; } else { i := Rechecked(lister, states, events, n - 1, c); }
  }

  /** A returned listing is for the key its root led to at an instant after the scan had ended. */
  lemma {:induction false} FinalConfirmed(lister: Lister, states: seq<State>, events: seq<Event>, n: nat, c: nat)
    returns (i: nat, visit: Visit)
    requires IsRun(lister, states, events) && n < |states| && c in states[n].callers
    requires states[n].callers[c].pc.Returned? && states[n].callers[c].pc.result.Final?
    ensures var result := states[n].callers[c].pc.result;
            visit.key == result.key
            && RecheckedAt(states, i, c, visit, Snap(result.entries, !result.isFresh), result.key)
  {
    assert n > 0;
    var s, e := states[n - 1], events[n - 1];
    assert IsStep(lister, s, e, states[n]);
    if c in s.callers && s.callers[c].pc.Returned? {
      i, visit := FinalConfirmed(lister, states, events, n - 1, c);
    } else {
      ReturnsExactly(lister, states, events, n - 1, c);
      i := Rechecked(lister, states, events, n - 1, c);
      visit := s.callers[c].pc.visit;
    }
  }

  /**
   At every step of every run: interim listings grow exactly when ListWithProgress, with a live context, settles a dirty
   listing and shows it, by that listing; and then the root still leads to the directory it was identified with.
   */
  lemma InterimExactly(lister: Lister, states: seq<State>, events: seq<Event>, m: nat, c: nat)
    requires IsRun(lister, states, events) && m < |events| && c in states[m].callers
    ensures c in states[m + 1].callers
    ensures var caller, after := states[m].callers[c], states[m + 1].callers[c];
            && (after.interim != caller.interim <==>
                && events[m] == Step(c, Settle(true)) && caller.mode == Progress && caller.expired == None
                && caller.pc.Left? && caller.pc.outcome.Snap? && caller.pc.outcome.dirty)
            && (after.interim != caller.interim ==>
                  && after.interim == caller.interim + [caller.pc.outcome.entries]
                  && Canonical(states[m].shared, caller.root) == caller.pc.visit.key.root
                  && InForce(states[m].shared, caller.pc.visit.key.root, caller.pc.visit.identity))
  {
    assert IsStep(lister, states[m], events[m], states[m + 1]);
  }

  // ---- What the outside does ----

  /** Changes are announced, replacements and vanishing roots are not, and links move on their own. */
  lemma WorldMoves(sh: Shared, o: Outside, root: string)
    ensures var t, touched := AfterOutside(sh, o), o.root == root;
            && t.scans == sh.scans && t.active == sh.active && t.finished == sh.finished
            && Gen(t, root) == Gen(sh, root) + (if o.Change? && touched then 1 else 0)
            && TreeOf(t, root) == (if (o.Change? || o.Replace?) && touched then o.tree else TreeOf(sh, root))
            && Canonical(t, root) == (if o.Relink? && touched then o.target else Canonical(sh, root))
            && (o.Replace? && touched ==> InForce(t, root, sh.nextId) && sh.nextId < t.nextId)
            && (o.Vanish? && touched ==> root !in t.ids)
            && (!touched || o.Change? || o.Relink? ==> forall id :: InForce(t, root, id) <==> InForce(sh, root, id))
  {}

  // ---- A caller whose own context has ended ----

  /** How many steps of its own a caller can still take once its context has ended. */
  function StepsLeft(pc: Pc): nat {
    match pc
    case Confirming(_, _) => 11
    case Rechecking(_, _, _) => 10
    case Idle(_) => 9
    case Resolved(_, _) => 8
    case Joining(_, _, _) => 7
    case Waiting(_) => 6
    case Woken(_) => 5
    case Validated(_) => 4
    case Leaving(_, _) => 3
    case Canceling(_, _) => 2
    case Left(_, _) => 1
    case Returned(_) => 0
  }

  predicate IsOwn(e: Event, c: nat) { (e.Step? || e.Join? || e.Leave? || e.Cancel?) && e.c == c }

  /** How many of the steps from `i` to `n` are the caller's own. */
  function OwnSteps(events: seq<Event>, c: nat, i: nat, n: nat): nat
    requires i <= n <= |events|
    decreases n
  {
    if i == n then 0 else OwnSteps(events, c, i, n - 1) + if IsOwn(events[n - 1], c) then 1 else 0
  }

  /** A context ends with its error and stays so; a caller woken after that does not look at the result. */
  lemma ContextEnds(sh: Shared, c: Caller, p: Private)
    requires Allowed(sh, c, p)
    ensures After(sh, c, p).expired == if p.Expire? then Some(p.err) else c.expired
    ensures c.expired.Some? && c.pc.Waiting? && !p.Expire? ==>
              After(sh, c, p).pc == Leaving(c.pc.visit, Fault(c.expired.value))
  {}

  lemma ExpiredStep(s: State, e: Event, c: nat)
    requires Enabled(s, e) && c in s.callers && s.callers[c].expired.Some?
    ensures c in CallersAfter(s, e) && CallersAfter(s, e)[c].expired.Some?
    ensures StepsLeft(CallersAfter(s, e)[c].pc) + (if IsOwn(e, c) then 1 else 0) <= StepsLeft(s.callers[c].pc)
  {}

  ghost predicate IsExpired(s: State, c: nat) { c in s.callers && s.callers[c].expired.Some? }

  /** The step brings an expired caller closer to its return, if it is its own. */
  ghost predicate Closer(s: State, e: Event, t: State, c: nat) {
    && IsExpired(s, c) && IsExpired(t, c)
    && StepsLeft(t.callers[c].pc) + (if IsOwn(e, c) then 1 else 0) <= StepsLeft(s.callers[c].pc)
  }

  lemma {:induction false} StaysExpired(lister: Lister, states: seq<State>, events: seq<Event>, i: nat, n: nat, c: nat)
    requires IsRun(lister, states, events) && i <= n < |states| && IsExpired(states[i], c)
    ensures IsExpired(states[n], c)
    ensures n < |events| ==> Closer(states[n], events[n], states[n + 1], c)
    decreases n - i
  {
    if i < n { StaysExpired(lister, states, events, i, n - 1, c); }
    if n < |events| {
      assert IsStep(lister, states[n], events[n], states[n + 1]);
      ExpiredStep(states[n], events[n], c);
    }
  }

  lemma {:induction false} CloserAndCloser(states: seq<State>, events: seq<Event>, i: nat, n: nat, c: nat)
    requires |states| == |events| + 1 && i <= n < |states| && IsExpired(states[i], c)
    requires forall k :: i <= k < n ==> Closer(states[k], events[k], states[k + 1], c)
    ensures IsExpired(states[n], c)
    ensures OwnSteps(events, c, i, n) + StepsLeft(states[n].callers[c].pc) <= StepsLeft(states[i].callers[c].pc)
    decreases n - i
  {
    if i < n {
      CloserAndCloser(states, events, i, n - 1, c);
      assert Closer(states[n - 1], events[n - 1], states[n - 1 + 1], c);
    }
  }

  /** Once its context has ended, a caller takes at most eleven more steps, whatever others do. */
  lemma ExpiredCallersEnd(lister: Lister, states: seq<State>, events: seq<Event>, i: nat, n: nat, c: nat)
    requires IsRun(lister, states, events) && i <= n < |states| && IsExpired(states[i], c)
    ensures IsExpired(states[n], c)
    ensures OwnSteps(events, c, i, n) + StepsLeft(states[n].callers[c].pc) <= StepsLeft(states[i].callers[c].pc) <= 11
  {
    forall k | i <= k < n ensures Closer(states[k], events[k], states[k + 1], c) {
      StaysExpired(lister, states, events, i, k, c);
    }
    CloserAndCloser(states, events, i, n, c);
  }

  /** And until it has returned, one of them is always possible. */
  lemma ExpiredNeverBlocked(lister: Lister, states: seq<State>, events: seq<Event>, c: nat) returns (e: Event)
    requires IsRun(lister, states, events) && Faithful(lister) && c in states[|events|].callers
    requires states[|events|].callers[c].expired.Some? && !states[|events|].callers[c].pc.Returned?
    ensures IsOwn(e, c) && Enabled(states[|events|], e)
  {
    RunTracked(lister, states, events);
    var s := states[|events|];
    var caller := s.callers[c];
    assert Sound(s.shared.scans, caller);
    var broken := Some(Failed(0));
    match caller.pc
    case Idle(_) => e := Step(c, GiveUp);
    case Resolved(_, _) => e := Step(c, Identify(broken));
    case Joining(_, _, _) =>
      TargetOk(s.shared, caller);
      e := Join(c);
    case Waiting(_) => e := Step(c, WakeExpired);
    case Woken(_) => e := Step(c, ReadIdentity(broken));
    case Validated(_) => e := Step(c, CheckGeneration);
    case Leaving(_, _) => e := Leave(c);
    case Canceling(_, _) => e := Cancel(c);
    case Left(_, _) => e := Step(c, Settle(false));
    case Confirming(_, _) => e := Step(c, Recheck);
    case Rechecking(_, _, _) => e := Step(c, Confirm(broken));
  }

  // ---- Cancelling an executor ----

  /** In every reachable state, a caller that leaves goes on to cancel the executor if and only if nobody else waits. */
  lemma LastLeaverCancels(lister: Lister, states: seq<State>, events: seq<Event>, c: nat)
    requires IsRun(lister, states, events) && Faithful(lister) && Enabled(states[|events|], Leave(c))
    ensures var s := states[|events|];
            var scan := s.callers[c].pc.visit.scan;
            && CallersAfter(s, Leave(c))[c].pc.visit.scan == scan
            && (CallersAfter(s, Leave(c))[c].pc.Canceling? <==>
                forall d :: d in s.callers && d != c ==> !Attached(s.callers[d], scan))
  {
    RunTracked(lister, states, events);
    var s := states[|events|];
    var scan := s.callers[c].pc.visit.scan;
    var others := Waiters(s.callers, scan) - {c};
    assert Waiters(s.callers, scan) == others + {c} && s.shared.scans[scan].waiters == |others| + 1;
    forall d | d in s.callers && d != c ensures Attached(s.callers[d], scan) <==> d in others {}
    if others != {} {
      var d :| d in others;
      assert Attached(s.callers[d], scan);
    }
  }

  ghost predicate CanceledAt(s: State, e: Event, k: nat) {
    e.Cancel? && e.c in s.callers && s.callers[e.c].pc.Canceling? && s.callers[e.c].pc.visit.scan == k
  }

  lemma CanceledStep(s: State, lister: Lister, e: Event, k: nat)
    requires Enabled(s, e) && k < |SharedAfter(s, lister, e).scans|
    ensures SharedAfter(s, lister, e).scans[k].canceled <==>
            (k < |s.shared.scans| && s.shared.scans[k].canceled) || CanceledAt(s, e, k)
  {
    if e.Join? { JoinCancels(s.shared, s.callers[e.c].pc, k); }
  }

  lemma JoinCancels(sh: Shared, pc: Pc, k: nat)
    requires pc.Joining? && CanJoin(sh, pc.key, pc.previous)
    requires k < |Joined(sh, pc.key, pc.identity, pc.previous).0.scans|
    ensures Joined(sh, pc.key, pc.identity, pc.previous).0.scans[k].canceled <==>
            k < |sh.scans| && sh.scans[k].canceled
  {
    var target := Target(sh, pc.key, pc.previous);
    if target.None? {
      var more := Open(sh, pc.key, pc.identity);
      assert more.scans[k].canceled <==> k < |sh.scans| && sh.scans[k].canceled;
      AttachCancels(more, pc.previous, |sh.scans|, k);
    } else {
      AttachCancels(sh, pc.previous, target.value, k);
    }
  }

  lemma AttachCancels(sh: Shared, previous: Option<nat>, f: nat, k: nat)
    requires f < |sh.scans| && (previous.Some? ==> previous.value < |sh.scans|) && k < |sh.scans|
    ensures AddWaiters(Link(sh, previous, f), f, 1).scans[k].canceled == sh.scans[k].canceled
  {}

  /** An executor's context is cancelled if and only if a last leaver has done it. */
  lemma {:induction false} CanceledExactly(lister: Lister, states: seq<State>, events: seq<Event>, n: nat, k: nat)
    requires IsRun(lister, states, events) && n < |states| && k < |states[n].shared.scans|
    ensures states[n].shared.scans[k].canceled <==> exists m :: 0 <= m < n && CanceledAt(states[m], events[m], k)
  {
    if n > 0 {
      assert IsStep(lister, states[n - 1], events[n - 1], states[n]);
      CanceledStep(states[n - 1], lister, events[n - 1], k);
      if k < |states[n - 1].shared.scans| {
        CanceledExactly(lister, states, events, n - 1, k);
      } else {
        NotYetCanceled(lister, states, events, n - 1, k);
      }
    }
  }

  lemma {:induction false} NotYetCanceled(lister: Lister, states: seq<State>, events: seq<Event>, n: nat, k: nat)
    requires IsRun(lister, states, events) && n < |states| && |states[n].shared.scans| <= k
    ensures forall m :: 0 <= m < n ==> !CanceledAt(states[m], events[m], k)
  {
    if n > 0 {
      var s, e := states[n - 1], events[n - 1];
      assert IsStep(lister, s, e, states[n]);
      assert |s.shared.scans| <= |states[n].shared.scans|;
      NotYetCanceled(lister, states, events, n - 1, k);
    }
  }
}
