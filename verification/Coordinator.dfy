/**
 The recursive-listing coordinator as one state machine: callers, executors, own-context
 expiry, invalidations, replaced roots and re-pointed root links interleave step by step.
 Everything done under the service mutex is one step; everything else is split.
 */
module Coordinator {
  import opened Listing

  datatype Key = Key(root: string, path: string)

  datatype Err = Canceled | DeadlineExceeded | LifecycleChanged | Failed(code: int)

  predicate IsContextError(e: Err) { e.Canceled? || e.DeadlineExceeded? }

  datatype ScanResult = Listed(entries: seq<FileEntry>) | Broke(err: Err)

  /** `order` numbers executors in the order they returned. */
  datatype Phase = Running(seen: seq<Tree>) | Done(result: ScanResult, order: nat)

  /** One executor. A scan is named by its index in creation order. */
  datatype Scan = Scan(
    key: Key, identity: nat, generation: nat,
    waiters: int, followup: Option<nat>, canceled: bool, phase: Phase)

  /**
   What all goroutines share. `ids` gives the identity of each root directory that exists. An
   identity is never reused and never belongs to two roots: that is what os.SameFile is trusted for.
   */
  datatype Shared = Shared(
    scans: seq<Scan>, active: map<Key, nat>, finished: nat,
    gens: map<string, nat>, trees: map<string, Tree>,
    ids: map<string, nat>, nextId: nat, links: map<string, string>)

  function Gen(sh: Shared, root: string): nat { if root in sh.gens then sh.gens[root] else 0 }

  function TreeOf(sh: Shared, root: string): Tree { if root in sh.trees then sh.trees[root] else map[] }

  /** canonicalListingRoot: a root that is no link is its own canonical root. */
  function Canonical(sh: Shared, root: string): string { if root in sh.links then sh.links[root] else root }

  predicate Ended(sh: Shared, i: nat) { i < |sh.scans| && sh.scans[i].phase.Done? }

  predicate Ongoing(sh: Shared, i: nat) { i < |sh.scans| && sh.scans[i].phase.Running? }

  // ---- Callers ----

  /** `Progress` is ListWithProgress, `Snapshot` is the recursive ListSnapshot. */
  datatype Mode = Progress | Snapshot

  /** What waitRecursiveSnapshot returns. */
  datatype Outcome = Snap(entries: seq<FileEntry>, dirty: bool) | Fault(err: Err)

  datatype Result = Final(key: Key, entries: seq<FileEntry>, isFresh: bool) | Raised(err: Err)

  /** What one loop iteration has identified and joined. */
  datatype Visit = Visit(key: Key, identity: nat, scan: nat)

  /** Where a caller stands. */
  datatype Pc =
    | Idle(previous: Option<nat>)
    | Resolved(key: Key, previous: Option<nat>)
    | Joining(key: Key, identity: nat, previous: Option<nat>)
    | Waiting(visit: Visit)
    | Woken(visit: Visit)
    | Validated(visit: Visit)
    | Leaving(visit: Visit, outcome: Outcome)
    | Canceling(visit: Visit, outcome: Outcome)
    | Left(visit: Visit, outcome: Outcome)
    | Confirming(visit: Visit, outcome: Outcome)
    | Rechecking(visit: Visit, outcome: Outcome, key: Key)
    | Returned(result: Result)

  /** `expired` is the caller's own context error, once it has one. */
  datatype Caller = Caller(mode: Mode, root: string, path: string, expired: Option<Err>, interim: seq<seq<FileEntry>>,
                           pc: Pc)

  function KeyOf(sh: Shared, c: Caller): Key { Key(Canonical(sh, c.root), c.path) }

  /** A second identification agrees with the first one. */
  predicate Matches(sh: Shared, c: Caller, key: Key, identity: nat) {
    KeyOf(sh, c) == key && key.root in sh.ids && sh.ids[key.root] == identity
  }

  // ---- Steps that read shared state and change only the caller ----

  /** `failure` is an error from reading identities off the file system. */
  datatype Private =
    | Expire(err: Err)
    | GiveUp
    | Resolve
    | Identify(failure: Option<Err>)
    | Wake
    | WakeExpired
    | ReadIdentity(failure: Option<Err>)
    | CheckGeneration
    | Settle(shown: bool)
    | Recheck
    | Confirm(failure: Option<Err>)

  predicate Readable(failure: Option<Err>) {
    failure.Some? ==> !IsContextError(failure.value) && !failure.value.LifecycleChanged?
  }

  predicate Allowed(sh: Shared, c: Caller, p: Private) {
    match p
    case Expire(err) => c.expired.None? && IsContextError(err)
    case GiveUp => c.expired.Some? && (c.pc.Idle? || (c.pc.Joining? && c.mode.Snapshot?))
    case Resolve => c.pc.Idle?
    case Identify(failure) => c.pc.Resolved? && Readable(failure) && (failure.None? ==> c.pc.key.root in sh.ids)
    case Wake => c.pc.Waiting? && Ended(sh, c.pc.visit.scan)
    case WakeExpired => c.pc.Waiting? && c.expired.Some?
    case ReadIdentity(failure) =>
      c.pc.Woken? && Ended(sh, c.pc.visit.scan) && Readable(failure)
      && (failure.None? ==> c.pc.visit.key.root in sh.ids)
    case CheckGeneration => c.pc.Validated? && Ended(sh, c.pc.visit.scan)
                            && sh.scans[c.pc.visit.scan].phase.result.Listed?
    case Settle(shown) => c.pc.Left? && (shown ==> Matches(sh, c, c.pc.visit.key, c.pc.visit.identity))
    case Recheck => c.pc.Confirming?
    case Confirm(failure) => c.pc.Rechecking? && Readable(failure) && (failure.None? ==> c.pc.key.root in sh.ids)
  }

  function AfterReadIdentity(sh: Shared, v: Visit, failure: Option<Err>): Pc
    requires Ended(sh, v.scan) && (failure.None? ==> v.key.root in sh.ids)
  {
    var scan := sh.scans[v.scan];
    if failure.Some? then Leaving(v, Fault(failure.value))
    else if sh.ids[v.key.root] != scan.identity then Leaving(v, Fault(LifecycleChanged))
    else if scan.phase.result.Broke? then Leaving(v, Fault(scan.phase.result.err))
    else Validated(v)
  }

  /** What follows the wait: the tail of waitRecursiveScan, or of the recursiveSnapshot loop. */
  function AfterSettle(c: Caller): Pc
    requires c.pc.Left?
  {
    var pc := c.pc;
    if c.expired.Some? then Returned(Raised(c.expired.value))
    else if pc.outcome.Fault? && !IsContextError(pc.outcome.err) then Returned(Raised(pc.outcome.err))
    else if pc.outcome.Fault? && c.mode.Snapshot? then Joining(pc.visit.key, pc.visit.identity, Some(pc.visit.scan))
    else Confirming(pc.visit, pc.outcome)
  }

  function AfterConfirm(sh: Shared, c: Caller, failure: Option<Err>): Pc
    requires c.pc.Rechecking? && (failure.None? ==> c.pc.key.root in sh.ids)
  {
    var pc := c.pc;
    if failure.Some? then Returned(Raised(failure.value))
    else if pc.key != pc.visit.key || sh.ids[pc.key.root] != pc.visit.identity then Returned(Raised(LifecycleChanged))
    else if c.mode.Snapshot? && c.expired.Some? then Returned(Raised(c.expired.value))
    else if pc.outcome.Snap? && (c.mode.Snapshot? || !pc.outcome.dirty)
    then Returned(Final(pc.visit.key, pc.outcome.entries, !pc.outcome.dirty))
    else Idle(Some(pc.visit.scan))
  }

  function After(sh: Shared, c: Caller, p: Private): Caller
    requires Allowed(sh, c, p)
  {
    match p
    case Expire(err) => c.(expired := Some(err))
    case GiveUp => c.(pc := Returned(Raised(c.expired.value)))
    case Resolve => c.(pc := Resolved(KeyOf(sh, c), c.pc.previous))
    case Identify(failure) =>
      if failure.Some? then c.(pc := Returned(Raised(failure.value)))
      else c.(pc := Joining(c.pc.key, sh.ids[c.pc.key.root], c.pc.previous))
    case Wake =>
      if c.expired.Some? then c.(pc := Leaving(c.pc.visit, Fault(c.expired.value))) else c.(pc := Woken(c.pc.visit))
    case WakeExpired => c.(pc := Leaving(c.pc.visit, Fault(c.expired.value)))
    case ReadIdentity(failure) => c.(pc := AfterReadIdentity(sh, c.pc.visit, failure))
    case CheckGeneration =>
      var v := c.pc.visit;
      var scan := sh.scans[v.scan];
      c.(pc := Leaving(v, Snap(scan.phase.result.entries, Gen(sh, v.key.root) != scan.generation)))
    case Settle(shown) =>
      var publishes := shown && c.mode.Progress? && c.expired.None? && c.pc.outcome.Snap? && c.pc.outcome.dirty;
      c.(pc := AfterSettle(c), interim := if publishes then c.interim + [c.pc.outcome.entries] else c.interim)
    case Recheck => c.(pc := Rechecking(c.pc.visit, c.pc.outcome, KeyOf(sh, c)))
    case Confirm(failure) => c.(pc := AfterConfirm(sh, c, failure))
  }

  // ---- Joining and leaving ----

  /** joinRecursiveScan: the followup of the previous scan, else the registered scan, else a new one. */
  function Target(sh: Shared, key: Key, previous: Option<nat>): Option<nat>
    requires previous.Some? ==> previous.value < |sh.scans|
  {
    if previous.Some? && sh.scans[previous.value].followup.Some? then sh.scans[previous.value].followup
    else if key in sh.active then Some(sh.active[key])
    else None
  }

  /** Pointers in the source cannot dangle; the invariants show that indexes cannot either. */
  predicate CanJoin(sh: Shared, key: Key, previous: Option<nat>) {
    && (previous.Some? ==> previous.value < |sh.scans|)
    && (Target(sh, key, previous).Some? ==> Target(sh, key, previous).value < |sh.scans|)
  }

  /** Registers a new scan that no caller waits for yet. */
  function Open(sh: Shared, key: Key, identity: nat): Shared {
    sh.(scans := sh.scans + [Scan(key, identity, Gen(sh, key.root), 0, None, false, Running([]))],
    active := sh.active[key := |sh.scans|])
  }

  function Link(sh: Shared, previous: Option<nat>, scan: nat): Shared
    requires previous.Some? ==> previous.value < |sh.scans|
  {
    if previous.None? then sh
    else sh.(scans := sh.scans[previous.value := sh.scans[previous.value].(followup := Some(scan))])
  }

  function AddWaiters(sh: Shared, scan: nat, n: int): Shared
    requires scan < |sh.scans|
  {
    sh.(scans := sh.scans[scan := sh.scans[scan].(waiters := sh.scans[scan].waiters + n)])
  }

  function Joined(sh: Shared, key: Key, identity: nat, previous: Option<nat>): (r: (Shared, nat))
    requires CanJoin(sh, key, previous)
    ensures r.1 < |r.0.scans|
  {
    var target := Target(sh, key, previous);
    if target.Some? then (AddWaiters(Link(sh, previous, target.value), target.value, 1), target.value)
    else (AddWaiters(Link(Open(sh, key, identity), previous, |sh.scans|), |sh.scans|, 1), |sh.scans|)
  }

  function MarkCanceled(sh: Shared, scan: nat): Shared
    requires scan < |sh.scans|
  {
    sh.(scans := sh.scans[scan := sh.scans[scan].(canceled := true)])
  }

  // ---- Executors ----

  function Observed(sh: Shared, i: nat): Shared
    requires Ongoing(sh, i)
  {
    var scan := sh.scans[i];
    sh.(scans := sh.scans[i := scan.(phase := Running(scan.phase.seen + [TreeOf(sh, scan.key.root)]))])
  }

  /** A canceled executor may still succeed, or fail for its own reasons; only waiters check lifecycles. */
  predicate CanFinish(sh: Shared, i: nat, failure: Option<Err>) {
    && Ongoing(sh, i)
    && (failure.None? ==> sh.scans[i].phase.seen != [])
    && (failure == Some(Canceled) ==> sh.scans[i].canceled)
    && failure != Some(LifecycleChanged)
  }

  function Finished(sh: Shared, lister: Lister, i: nat, failure: Option<Err>): Shared
    requires CanFinish(sh, i, failure)
  {
    var scan := sh.scans[i];
    var result :=
      if failure.Some? then Broke(failure.value) else Listed(lister.assemble(scan.phase.seen, scan.key.path));
    sh.(scans := sh.scans[i := scan.(phase := Done(result, sh.finished))],
    active := sh.active - {scan.key}, finished := sh.finished + 1)
  }

  // ---- The outside world ----

  /** `Change` is a tree change together with its InvalidateWorkspacePaths call. */
  datatype Outside =
    | Change(root: string, tree: Tree)
    | Replace(root: string, tree: Tree)
    | Vanish(root: string)
    | Relink(root: string, target: string)

  function AfterOutside(sh: Shared, o: Outside): Shared {
    match o
    case Change(root, tree) => sh.(trees := sh.trees[root := tree], gens := sh.gens[root := Gen(sh, root) + 1])
    case Replace(root, tree) =>
      sh.(trees := sh.trees[root := tree], ids := sh.ids[root := sh.nextId], nextId := sh.nextId + 1)
    case Vanish(root) => sh.(ids := sh.ids - {root})
    case Relink(root, target) => sh.(links := sh.links[root := target])
  }

  // ---- The whole machine ----

  datatype State = State(callers: map<nat, Caller>, shared: Shared)

  datatype Event =
    | Call(c: nat, mode: Mode, root: string, path: string)
    | Step(c: nat, p: Private)
    | Join(c: nat)
    | Leave(c: nat)
    | Cancel(c: nat)
    | Observe(i: nat)
    | Finish(i: nat, failure: Option<Err>)
    | World(o: Outside)

  predicate Enabled(s: State, e: Event) {
    match e
    case Call(c, _, _, _) => c !in s.callers
    case Step(c, p) => c in s.callers && Allowed(s.shared, s.callers[c], p)
    case Join(c) => c in s.callers && s.callers[c].pc.Joining?
                    && CanJoin(s.shared, s.callers[c].pc.key, s.callers[c].pc.previous)
    case Leave(c) => c in s.callers && s.callers[c].pc.Leaving? && s.callers[c].pc.visit.scan < |s.shared.scans|
    case Cancel(c) => c in s.callers && s.callers[c].pc.Canceling? && s.callers[c].pc.visit.scan < |s.shared.scans|
    case Observe(i) => Ongoing(s.shared, i)
    case Finish(i, failure) => CanFinish(s.shared, i, failure)
    case World(_) => true
  }

  function SharedAfter(s: State, lister: Lister, e: Event): Shared
    requires Enabled(s, e)
  {
    match e
    case Call(_, _, _, _) => s.shared
    case Step(_, _) => s.shared
    case Join(c) => Joined(s.shared, s.callers[c].pc.key, s.callers[c].pc.identity, s.callers[c].pc.previous).0
    case Leave(c) => AddWaiters(s.shared, s.callers[c].pc.visit.scan, -1)
    case Cancel(c) => MarkCanceled(s.shared, s.callers[c].pc.visit.scan)
    case Observe(i) => Observed(s.shared, i)
    case Finish(i, failure) => Finished(s.shared, lister, i, failure)
    case World(o) => AfterOutside(s.shared, o)
  }

  /** leaveRecursiveScan decides under the mutex whether it was last, and cancels after releasing it. */
  function AfterLeave(sh: Shared, c: Caller): Caller
    requires c.pc.Leaving? && c.pc.visit.scan < |sh.scans|
  {
    if sh.scans[c.pc.visit.scan].waiters - 1 == 0 then c.(pc := Canceling(c.pc.visit, c.pc.outcome))
    else c.(pc := Left(c.pc.visit, c.pc.outcome))
  }

  function CallersAfter(s: State, e: Event): map<nat, Caller>
    requires Enabled(s, e)
  {
    match e
    case Call(c, mode, root, path) => s.callers[c := Caller(mode, root, path, None, [], Idle(None))]
    case Step(c, p) => s.callers[c := After(s.shared, s.callers[c], p)]
    case Join(c) =>
      var pc := s.callers[c].pc;
      var scan := Joined(s.shared, pc.key, pc.identity, pc.previous).1;
      s.callers[c := s.callers[c].(pc := Waiting(Visit(pc.key, pc.identity, scan)))]
    case Leave(c) => s.callers[c := AfterLeave(s.shared, s.callers[c])]
    case Cancel(c) => s.callers[c := s.callers[c].(pc := Left(s.callers[c].pc.visit, s.callers[c].pc.outcome))]
    case Observe(_) => s.callers
    case Finish(_, _) => s.callers
    case World(_) => s.callers
  }

  function Apply(s: State, lister: Lister, e: Event): State
    requires Enabled(s, e)
  {
    State(CallersAfter(s, e), SharedAfter(s, lister, e))
  }

  /** A fresh service: no caller, no scan, roots with distinct identities. */
  ghost predicate Init(s: State) {
    && s.callers == map[] && s.shared.scans == [] && s.shared.active == map[]
    && (forall r :: r in s.shared.ids ==> s.shared.ids[r] < s.shared.nextId)
    && (forall q, r :: q in s.shared.ids && r in s.shared.ids && q != r ==> s.shared.ids[q] != s.shared.ids[r])
  }

  ghost predicate IsStep(lister: Lister, s: State, e: Event, t: State) { Enabled(s, e) && t == Apply(s, lister, e) }

  /** `states` is a run of the machine taken by `events`. */
  ghost predicate IsRun(lister: Lister, states: seq<State>, events: seq<Event>) {
    && |states| == |events| + 1 && Init(states[0])
    && forall k :: 0 <= k < |events| ==> IsStep(lister, states[k], events[k], states[k + 1])
  }
}
