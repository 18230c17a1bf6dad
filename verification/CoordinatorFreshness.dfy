/**
 Freshness of recursive listings, over whole runs: a listing returned as fresh is the listing of
 the tree at one instant inside the call, although executors read while trees change, roots are
 replaced and waiters inherit scans started by others.
 */
module CoordinatorFreshness {
  import opened Listing
  import opened Coordinator
  import opened CoordinatorSafety

  // ---- What a step may assume of the others ----

  /** An identity read from `root` at some earlier instant. */
  ghost predicate Known(sh: Shared, root: string, identity: nat) {
    && identity < sh.nextId
    && forall r :: r in sh.ids ==> if r == root then identity <= sh.ids[r] else identity != sh.ids[r]
  }

  predicate InForce(sh: Shared, root: string, identity: nat) { root in sh.ids && sh.ids[root] == identity }

  ghost predicate UpToDate(lister: Lister, sh: Shared, scan: Scan) {
    match scan.phase
    case Running(seen) => Steady(seen, TreeOf(sh, scan.key.root))
    case Done(Listed(entries), _) => entries == lister.list(TreeOf(sh, scan.key.root), scan.key.path)
    case Done(Broke(_), _) => true
  }

  /** As long as neither the generation nor the root has moved, a scan has seen one tree only: the current one. */
  ghost predicate Honest(lister: Lister, sh: Shared, scan: Scan) {
    && Known(sh, scan.key.root, scan.identity)
    && scan.generation <= Gen(sh, scan.key.root)
    && (InForce(sh, scan.key.root, scan.identity) && scan.generation == Gen(sh, scan.key.root) ==>
          UpToDate(lister, sh, scan))
  }

  ghost predicate IdsOk(sh: Shared) {
    && (forall r :: r in sh.ids ==> sh.ids[r] < sh.nextId)
    && (forall q, r :: q in sh.ids && r in sh.ids && q != r ==> sh.ids[q] != sh.ids[r])
  }

  ghost predicate AllHonest(lister: Lister, sh: Shared) {
    IdsOk(sh) && forall i :: 0 <= i < |sh.scans| ==> Honest(lister, sh, sh.scans[i])
  }

  ghost predicate Informed(sh: Shared, c: Caller) {
    var pc := c.pc;
    && (pc.Joining? ==> Known(sh, pc.key.root, pc.identity))
    && (Visiting(pc) ==> Known(sh, pc.visit.key.root, pc.visit.identity))
    && (pc.Validated? ==> pc.visit.scan < |sh.scans| && sh.scans[pc.visit.scan].key == pc.visit.key
                          && pc.visit.identity <= sh.scans[pc.visit.scan].identity)
  }

  // ---- Each kind of step ----

  lemma OutsideHonest(lister: Lister, sh: Shared, o: Outside, scan: Scan)
    requires Honest(lister, sh, scan)
    ensures Honest(lister, AfterOutside(sh, o), scan)
  {}

  lemma ObserveHonest(lister: Lister, sh: Shared, i: nat)
    requires Ongoing(sh, i) && Honest(lister, sh, sh.scans[i])
    ensures Honest(lister, Observed(sh, i), Observed(sh, i).scans[i])
  {}

  lemma FinishHonest(lister: Lister, sh: Shared, i: nat, failure: Option<Err>)
    requires Faithful(lister) && CanFinish(sh, i, failure) && Honest(lister, sh, sh.scans[i])
    ensures Honest(lister, Finished(sh, lister, i, failure), Finished(sh, lister, i, failure).scans[i])
  {}

  /** What linking and counting leave alone. */
  ghost predicate SameSight(a: Scan, b: Scan) {
    a.key == b.key && a.identity == b.identity && a.generation == b.generation && a.phase == b.phase
  }

  /** Honesty looks at nothing but the world and what the scan has seen. */
  lemma HonestCarries(lister: Lister, sh: Shared, t: Shared, scan: Scan, same: Scan)
    requires Honest(lister, sh, scan) && t.ids == sh.ids && t.nextId == sh.nextId && t.gens == sh.gens
    requires t.trees == sh.trees
    requires SameSight(same, scan)
    ensures Honest(lister, t, same)
  {}

  lemma AttachShape(sh: Shared, previous: Option<nat>, f: nat, i: nat)
    requires f < |sh.scans| && (previous.Some? ==> previous.value < |sh.scans|) && i < |sh.scans|
    ensures var t := AddWaiters(Link(sh, previous, f), f, 1);
            && t.ids == sh.ids && t.nextId == sh.nextId && t.gens == sh.gens && t.trees == sh.trees
            && |t.scans| == |sh.scans| && SameSight(t.scans[i], sh.scans[i])
  {}

  lemma JoinShape(sh: Shared, key: Key, identity: nat, previous: Option<nat>, i: nat)
    requires CanJoin(sh, key, previous) && i < |Joined(sh, key, identity, previous).0.scans|
    ensures var t := Joined(sh, key, identity, previous).0;
            && t.ids == sh.ids && t.nextId == sh.nextId && t.gens == sh.gens && t.trees == sh.trees
            && var scan := if i < |sh.scans| then sh.scans[i]
                           else Scan(key, identity, Gen(sh, key.root), 0, None, false, Running([]));
            SameSight(t.scans[i], scan)
  {
    var target := Target(sh, key, previous);
    if target.Some? {
      AttachShape(sh, previous, target.value, i);
    } else {
      AttachShape(Open(sh, key, identity), previous, |sh.scans|, i);
    }
  }

  lemma JoinHonest(lister: Lister, sh: Shared, key: Key, identity: nat, previous: Option<nat>)
    requires AllHonest(lister, sh) && CanJoin(sh, key, previous) && Known(sh, key.root, identity)
    ensures AllHonest(lister, Joined(sh, key, identity, previous).0)
  {
    var t := Joined(sh, key, identity, previous).0;
    forall i | 0 <= i < |t.scans| ensures Honest(lister, t, t.scans[i]) {
      JoinShape(sh, key, identity, previous, i);
      var scan := if i < |sh.scans| then sh.scans[i]
      else Scan(key, identity, Gen(sh, key.root), 0, None, false, Running([]));
      HonestCarries(lister, sh, t, scan, t.scans[i]);
    }
  }

  lemma StepHonest(lister: Lister, s: State, e: Event)
    requires Faithful(lister) && AllHonest(lister, s.shared) && Enabled(s, e)
    requires (forall c :: c in s.callers ==> Informed(s.shared, s.callers[c]))
    ensures AllHonest(lister, SharedAfter(s, lister, e))
  {
    var sh, t := s.shared, SharedAfter(s, lister, e);
    if e.Join? {
      var pc := s.callers[e.c].pc;
      assert Informed(sh, s.callers[e.c]);
      JoinHonest(lister, sh, pc.key, pc.identity, pc.previous);
    } else {
      forall i | 0 <= i < |t.scans| ensures Honest(lister, t, t.scans[i]) {
        OneHonest(lister, s, e, i);
      }
    }
  }

  lemma OneHonest(lister: Lister, s: State, e: Event, i: nat)
    requires Faithful(lister) && AllHonest(lister, s.shared) && Enabled(s, e) && !e.Join?
    requires i < |SharedAfter(s, lister, e).scans|
    ensures Honest(lister, SharedAfter(s, lister, e), SharedAfter(s, lister, e).scans[i])
  {
    var sh, t := s.shared, SharedAfter(s, lister, e);
    assert Honest(lister, sh, sh.scans[i]);
    if e.World? {
      OutsideHonest(lister, sh, e.o, sh.scans[i]);
    } else if e.Observe? && e.i == i {
      ObserveHonest(lister, sh, i);
    } else if e.Finish? && e.i == i {
      FinishHonest(lister, sh, i, e.failure);
    } else {
      HonestCarries(lister, sh, t, sh.scans[i], t.scans[i]);
    }
  }

  /** Shared steps leave identities as they are, or hand out one never used before. */
  ghost predicate IdsGrow(before: Shared, after: Shared) {
    && before.nextId <= after.nextId
    && forall r :: r in after.ids ==>
                     (r in before.ids && after.ids[r] == before.ids[r]) || before.nextId <= after.ids[r]
  }

  lemma OutsideIds(sh: Shared, o: Outside)
    ensures IdsGrow(sh, AfterOutside(sh, o))
  {}

  lemma StepIds(lister: Lister, s: State, e: Event)
    requires Enabled(s, e)
    ensures IdsGrow(s.shared, SharedAfter(s, lister, e))
  {
    if e.World? {
      OutsideIds(s.shared, e.o);
    } else if e.Join? {
      JoinWorld(s.shared, s.callers[e.c].pc.key, s.callers[e.c].pc.identity, s.callers[e.c].pc.previous);
    }
  }

  lemma JoinWorld(sh: Shared, key: Key, identity: nat, previous: Option<nat>)
    requires CanJoin(sh, key, previous)
    ensures var t := Joined(sh, key, identity, previous).0;
            t.ids == sh.ids && t.nextId == sh.nextId && t.gens == sh.gens && t.trees == sh.trees
  {}

  /** A generation moves only when its root changes. */
  lemma StepGens(lister: Lister, s: State, e: Event, root: string)
    requires Enabled(s, e)
    ensures Gen(s.shared, root) <= Gen(SharedAfter(s, lister, e), root)
    ensures s.callers.Keys <= CallersAfter(s, e).Keys
  {
    if e.Join? {
      JoinWorld(s.shared, s.callers[e.c].pc.key, s.callers[e.c].pc.identity, s.callers[e.c].pc.previous);
    }
  }

  lemma InformedStable(before: Shared, after: Shared, c: Caller)
    requires IdsGrow(before, after) && Grows(before.scans, after.scans) && Informed(before, c)
    ensures Informed(after, c)
  {}

  lemma InformedStep(lister: Lister, sh: Shared, c: Caller, p: Private)
    requires AllHonest(lister, sh) && Sound(sh.scans, c) && Informed(sh, c) && Allowed(sh, c, p)
    ensures Informed(sh, After(sh, c, p))
  {
    if p.ReadIdentity? {
      ValidatedInformed(lister, sh, c, p.failure);
    } else {
      OthersInformed(lister, sh, c, p);
    }
  }

  /** A scan whose identity is in force belongs to the caller's key. */
  lemma ValidatedInformed(lister: Lister, sh: Shared, c: Caller, failure: Option<Err>)
    requires AllHonest(lister, sh) && Sound(sh.scans, c) && Informed(sh, c) && Allowed(sh, c, ReadIdentity(failure))
    ensures Informed(sh, After(sh, c, ReadIdentity(failure)))
  {
    assert Honest(lister, sh, sh.scans[c.pc.visit.scan]);
  }

  lemma OthersInformed(lister: Lister, sh: Shared, c: Caller, p: Private)
    requires AllHonest(lister, sh) && Informed(sh, c) && Allowed(sh, c, p) && !p.ReadIdentity?
    ensures Informed(sh, After(sh, c, p))
  {}

  // ---- Evidence along a run ----

  /** At this instant `entries` is the listing of the tree, and comes from a scan of the current generation. */
  ghost predicate Current(lister: Lister, sh: Shared, key: Key, entries: seq<FileEntry>, k: nat) {
    && entries == lister.list(TreeOf(sh, key.root), key.path)
    && k < |sh.scans| && sh.scans[k].key == key && sh.scans[k].generation == Gen(sh, key.root)
    && sh.scans[k].phase.Done? && sh.scans[k].phase.result == Listed(entries)
  }

  ghost predicate Witness(lister: Lister, states: seq<State>, i: nat, k: nat, c: nat, key: Key,
                          entries: seq<FileEntry>) {
    && i < |states| && c in states[i].callers && !states[i].callers[c].pc.Returned?
    && Current(lister, states[i].shared, key, entries, k)
  }

  /** The root directory the caller identified is gone for good. */
  ghost predicate Lost(sh: Shared, root: string, identity: nat) {
    identity < sh.nextId && (root in sh.ids ==> identity < sh.ids[root])
  }

  predicate Clean(pc: Pc) {
    && (pc.Leaving? || pc.Canceling? || pc.Left? || pc.Confirming? || pc.Rechecking?)
    && pc.outcome.Snap? && !pc.outcome.dirty
  }

  ghost predicate Accounted(lister: Lister, states: seq<State>, c: nat, sh: Shared, pc: Pc) {
    && (Clean(pc) ==>
          || Lost(sh, pc.visit.key.root, pc.visit.identity)
          || (exists i, k :: Witness(lister, states, i, k, c, pc.visit.key, pc.outcome.entries)))
    && (pc.Returned? && pc.result.Final? && pc.result.isFresh ==>
          exists i, k :: Witness(lister, states, i, k, c, pc.result.key, pc.result.entries))
  }

  lemma AccountedGrows(lister: Lister, states: seq<State>, more: State, c: nat, sh: Shared, after: Shared, pc: Pc)
    requires Accounted(lister, states, c, sh, pc) && IdsGrow(sh, after)
    ensures Accounted(lister, states + [more], c, after, pc)
  {
    if Clean(pc) && !Lost(sh, pc.visit.key.root, pc.visit.identity) {
      var i, k :| Witness(lister, states, i, k, c, pc.visit.key, pc.outcome.entries);
      assert Witness(lister, states + [more], i, k, c, pc.visit.key, pc.outcome.entries);
    }
    if pc.Returned? && pc.result.Final? && pc.result.isFresh {
      var i, k :| Witness(lister, states, i, k, c, pc.result.key, pc.result.entries);
      assert Witness(lister, states + [more], i, k, c, pc.result.key, pc.result.entries);
    }
  }

  /** The generation check is the linearization point, unless the root was replaced since it was validated. */
  lemma CheckAccounted(lister: Lister, states: seq<State>, c: nat)
    requires states != []
    requires var s := states[|states| - 1];
             && c in s.callers && Allowed(s.shared, s.callers[c], CheckGeneration)
             && AllHonest(lister, s.shared) && Informed(s.shared, s.callers[c])
    ensures var s := states[|states| - 1];
            Accounted(lister, states, c, s.shared, After(s.shared, s.callers[c], CheckGeneration).pc)
  {
    var s := states[|states| - 1];
    var v := s.callers[c].pc.visit;
    var scan := s.shared.scans[v.scan];
    assert Honest(lister, s.shared, scan);
    if scan.generation == Gen(s.shared, v.key.root) && InForce(s.shared, v.key.root, scan.identity) {
      assert Witness(lister, states, |states| - 1, v.scan, c, v.key, scan.phase.result.entries);
    }
  }

  lemma StepAccounted(lister: Lister, states: seq<State>, c: nat, p: Private)
    requires states != []
    requires var s := states[|states| - 1];
             && c in s.callers && Allowed(s.shared, s.callers[c], p)
             && AllHonest(lister, s.shared) && Informed(s.shared, s.callers[c])
             && Accounted(lister, states, c, s.shared, s.callers[c].pc)
    ensures var s := states[|states| - 1]; Accounted(lister, states, c, s.shared, After(s.shared, s.callers[c], p).pc)
  {
    if p.CheckGeneration? {
      CheckAccounted(lister, states, c);
    } else {
      var s := states[|states| - 1];
      var pc, next := s.callers[c].pc, After(s.shared, s.callers[c], p).pc;
      assert next.Returned? && next.result.Final? && next.result.isFresh && !pc.Returned? ==>
          Clean(pc) && next.result.key == pc.visit.key && next.result.entries == pc.outcome.entries
          && !Lost(s.shared, pc.visit.key.root, pc.visit.identity);
      assert Clean(next) ==> Clean(pc) && next.visit == pc.visit && next.outcome == pc.outcome;
    }
  }

  /** Everything the induction over a run carries. */
  ghost predicate Tracked(lister: Lister, states: seq<State>) {
    && states != []
    && var s := states[|states| - 1];
    && Safe(s) && AllHonest(lister, s.shared)
    && forall c :: c in s.callers ==>
                     Informed(s.shared, s.callers[c]) && Accounted(lister, states, c, s.shared, s.callers[c].pc)
  }

  /** A caller that does not move itself. */
  lemma OtherTracked(lister: Lister, states: seq<State>, e: Event, c: nat)
    requires Tracked(lister, states) && Enabled(states[|states| - 1], e) && c in states[|states| - 1].callers
    ensures var s := states[|states| - 1];
            var t := Apply(s, lister, e);
            Informed(t.shared, s.callers[c]) && Accounted(lister, states + [t], c, t.shared, s.callers[c].pc)
  {
    var s := states[|states| - 1];
    var t := Apply(s, lister, e);
    SafeKept(s, lister, e);
    StepIds(lister, s, e);
    InformedStable(s.shared, t.shared, s.callers[c]);
    AccountedGrows(lister, states, t, c, s.shared, t.shared, s.callers[c].pc);
  }

  /** A caller that takes a private step; the shared state stays. */
  lemma OwnTracked(lister: Lister, states: seq<State>, c: nat, p: Private)
    requires Tracked(lister, states) && Enabled(states[|states| - 1], Step(c, p))
    ensures var s := states[|states| - 1];
            var t := Apply(s, lister, Step(c, p));
            Informed(t.shared, t.callers[c]) && Accounted(lister, states + [t], c, t.shared, t.callers[c].pc)
  {
    var s := states[|states| - 1];
    var t := Apply(s, lister, Step(c, p));
    InformedStep(lister, s.shared, s.callers[c], p);
    StepAccounted(lister, states, c, p);
    AccountedGrows(lister, states, t, c, s.shared, t.shared, t.callers[c].pc);
  }

  /** Joining, leaving and canceling move a caller without giving it new knowledge. */
  lemma MovedTracked(lister: Lister, states: seq<State>, e: Event)
    requires Tracked(lister, states) && Enabled(states[|states| - 1], e) && (e.Join? || e.Leave? || e.Cancel?)
    ensures var s := states[|states| - 1];
            var t := Apply(s, lister, e);
            Informed(t.shared, t.callers[e.c]) && Accounted(lister, states + [t], e.c, t.shared, t.callers[e.c].pc)
  {
    OtherTracked(lister, states, e, e.c);
  }

  lemma CallerTracked(lister: Lister, states: seq<State>, e: Event, c: nat)
    requires Tracked(lister, states) && Enabled(states[|states| - 1], e) && c in CallersAfter(states[|states| - 1], e)
    ensures var s := states[|states| - 1];
            var t := Apply(s, lister, e);
            Informed(t.shared, t.callers[c]) && Accounted(lister, states + [t], c, t.shared, t.callers[c].pc)
  {
    if e.Step? && e.c == c {
      OwnTracked(lister, states, c, e.p);
    } else if (e.Join? || e.Leave? || e.Cancel?) && e.c == c {
      MovedTracked(lister, states, e);
    } else if c in states[|states| - 1].callers {
      OtherTracked(lister, states, e, c);
    }
  }

  lemma TrackedStep(lister: Lister, states: seq<State>, e: Event)
    requires Tracked(lister, states) && Enabled(states[|states| - 1], e) && Faithful(lister)
    ensures Tracked(lister, states + [Apply(states[|states| - 1], lister, e)])
  {
    var s := states[|states| - 1];
    var t := Apply(s, lister, e);
    SafeKept(s, lister, e);
    StepHonest(lister, s, e);
    forall c | c in t.callers
      ensures Informed(t.shared, t.callers[c]) && Accounted(lister, states + [t], c, t.shared, t.callers[c].pc)
    {
      CallerTracked(lister, states, e, c);
    }
  }

  lemma InitTracked(lister: Lister, s: State)
    requires Init(s)
    ensures Tracked(lister, [s])
  {}

  lemma {:induction false} RunTracked(lister: Lister, states: seq<State>, events: seq<Event>)
    requires IsRun(lister, states, events) && Faithful(lister)
    ensures Tracked(lister, states)
    decreases |events|
  {
    var n := |events|;
    if n == 0 {
      InitTracked(lister, states[0]);
      assert states == [states[0]];
    } else {
      var init := states[..n];
      RunTracked(lister, init, events[..n - 1]);
      assert IsStep(lister, states[n - 1], events[n - 1], states[n]);
      TrackedStep(lister, init, events[n - 1]);
      assert states == init + [states[n]];
    }
  }

  // ---- Scans over a run ----

  lemma GrowsOn(a: seq<Scan>, b: seq<Scan>, c: seq<Scan>)
    requires Grows(a, b) && Grows(b, c)
    ensures Grows(a, c)
  {}

  lemma {:induction false} GrowChain(states: seq<State>, i: nat, m: nat)
    requires i <= m < |states|
    requires forall k :: i <= k < m ==> Grows(states[k].shared.scans, states[k + 1].shared.scans)
    ensures Grows(states[i].shared.scans, states[m].shared.scans)
    decreases m - i
  {
    if i < m {
      GrowChain(states, i, m - 1);
      GrowsOn(states[i].shared.scans, states[m - 1].shared.scans, states[m].shared.scans);
    }
  }

  /** Scans keep their key and identity. */
  lemma ScansStay(lister: Lister, states: seq<State>, events: seq<Event>, i: nat, m: nat)
    requires IsRun(lister, states, events) && Faithful(lister) && i <= m < |states|
    ensures Grows(states[i].shared.scans, states[m].shared.scans)
  {
    forall k | i <= k < m ensures Grows(states[k].shared.scans, states[k + 1].shared.scans) {
      StepGrows(lister, states, events, k);
    }
    GrowChain(states, i, m);
  }

  lemma StepGrows(lister: Lister, states: seq<State>, events: seq<Event>, k: nat)
    requires IsRun(lister, states, events) && Faithful(lister) && k < |events|
    ensures Grows(states[k].shared.scans, states[k + 1].shared.scans)
  {
    RunTracked(lister, states[..k + 1], events[..k]);
    assert IsStep(lister, states[k], events[k], states[k + 1]);
    SafeKept(states[k], lister, events[k]);
  }

  // ---- Main results ----

  lemma {:induction false} GenerationsOnlyGrow(lister: Lister, states: seq<State>, events: seq<Event>, j: nat, i: nat,
                                               root: string)
    requires IsRun(lister, states, events) && j <= i < |states|
    ensures Gen(states[j].shared, root) <= Gen(states[i].shared, root)
    ensures states[j].callers.Keys <= states[i].callers.Keys
    decreases i - j
  {
    if j < i {
      assert IsStep(lister, states[j], events[j], states[j + 1]);
      StepGens(lister, states[j], events[j], root);
      GenerationsOnlyGrow(lister, states, events, j + 1, i, root);
    }
  }

  /**
   Freshness. In every run, every listing that ListWithProgress returns, and every one that ListSnapshot returns as
   fresh, was at some instant `i` inside the call the listing of the whole tree; it comes from a scan `k` of the same
   key whose generation is no older than any invalidation that completed before the call began.
   */
  lemma Linearizable(lister: Lister, states: seq<State>, events: seq<Event>, c: nat, key: Key, entries: seq<FileEntry>,
                     isFresh: bool)
    requires IsRun(lister, states, events) && Faithful(lister)
    requires c in states[|events|].callers && states[|events|].callers[c].pc == Returned(Final(key, entries, isFresh))
    requires states[|events|].callers[c].mode.Progress? || isFresh
    ensures isFresh && key.path == states[|events|].callers[c].path
    ensures exists i: nat, k: nat ::
              && Witness(lister, states, i, k, c, key, entries)
              && forall j :: 0 <= j < |states| && c !in states[j].callers ==>
                               Gen(states[j].shared, key.root) <= states[i].shared.scans[k].generation
  {
    RunTracked(lister, states, events);
    assert Sound(states[|events|].shared.scans, states[|events|].callers[c]);
    var i: nat, k: nat :| Witness(lister, states, i, k, c, key, entries);
    forall j | 0 <= j < |states| && c !in states[j].callers
      ensures Gen(states[j].shared, key.root) <= states[i].shared.scans[k].generation
    {
      if i <= j {
        GenerationsOnlyGrow(lister, states, events, i, j, key.root);
      } else {
        GenerationsOnlyGrow(lister, states, events, j, i, key.root);
      }
    }
  }

  /** In every reachable state: one executor per key, registered exactly while it has not returned. */
  lemma OneExecutorPerKey(lister: Lister, states: seq<State>, events: seq<Event>, i: nat, j: nat)
    requires IsRun(lister, states, events) && Faithful(lister)
    requires Ongoing(states[|events|].shared, i)
    ensures var sh := states[|events|].shared; sh.scans[i].key in sh.active && sh.active[sh.scans[i].key] == i
    ensures var sh := states[|events|].shared; Ongoing(sh, j) && sh.scans[i].key == sh.scans[j].key ==> i == j
    ensures var sh := states[|events|].shared;
            forall k :: k in sh.active ==> Ongoing(sh, sh.active[k]) && sh.scans[sh.active[k]].key == k
  {
    RunTracked(lister, states, events);
  }

  /** A caller that ends with a cancellation error was canceled itself, and every count of waiters is exact. */
  lemma CancellationIsIsolated(lister: Lister, states: seq<State>, events: seq<Event>, c: nat)
    requires IsRun(lister, states, events) && Faithful(lister) && c in states[|events|].callers
    ensures var caller := states[|events|].callers[c];
            caller.pc.Returned? && caller.pc.result.Raised? && IsContextError(caller.pc.result.err) ==>
              caller.expired == Some(caller.pc.result.err)
    ensures Counted(states[|events|])
  {
    RunTracked(lister, states, events);
    assert Sound(states[|events|].shared.scans, states[|events|].callers[c]);
  }

  /** `path` follows followup links. */
  ghost predicate FollowsLinks(scans: seq<Scan>, path: seq<nat>) {
    && (forall n :: 0 <= n < |path| ==> path[n] < |scans|)
    && (forall n :: 0 <= n < |path| - 1 ==> scans[path[n]].followup == Some(path[n + 1]))
  }

  lemma {:induction false} ChainsClimb(scans: seq<Scan>, finished: nat, path: seq<nat>)
    requires Chained(scans, finished) && FollowsLinks(scans, path) && |path| >= 2
    ensures var first, last := scans[path[0]], scans[path[|path| - 1]];
            first.phase.Done? && (last.phase.Done? ==> first.phase.order < last.phase.order)
    ensures (forall n :: 0 <= n < |path| ==> scans[path[n]].key == scans[path[0]].key) ==> path[0] < path[|path| - 1]
  {
    assert scans[path[0]].followup == Some(path[0 + 1]);
    assert LinkOk(scans, path[0]);
    if |path| > 2 {
      var rest := path[1..];
      forall n | 0 <= n < |rest| - 1 ensures scans[rest[n]].followup == Some(rest[n + 1]) {
        assert scans[path[n + 1]].followup == Some(path[n + 1 + 1]);
      }
      ChainsClimb(scans, finished, rest);
      if forall n :: 0 <= n < |path| ==> scans[path[n]].key == scans[path[0]].key {
        forall n | 0 <= n < |rest| ensures scans[rest[n]].key == scans[rest[0]].key {
          assert scans[path[n + 1]].key == scans[path[0]].key && scans[path[1]].key == scans[path[0]].key;
        }
      }
    }
  }

  /**
   Followup chains never loop in any reachable state. They climb in the order executors returned;
   within one key they also climb in creation order.
   */
  lemma FollowupsAreAcyclic(lister: Lister, states: seq<State>, events: seq<Event>, path: seq<nat>)
    requires IsRun(lister, states, events) && Faithful(lister)
    requires FollowsLinks(states[|events|].shared.scans, path) && |path| >= 2
    ensures path[0] != path[|path| - 1]
    ensures var scans := states[|events|].shared.scans;
            (forall n :: 0 <= n < |path| ==> scans[path[n]].key == scans[path[0]].key) ==> path[0] < path[|path| - 1]
  {
    RunTracked(lister, states, events);
    var sh := states[|events|].shared;
    ChainsClimb(sh.scans, sh.finished, path);
  }
}
