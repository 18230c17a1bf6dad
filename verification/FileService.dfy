/**
 The mutex-protected part of FileService as objects: the scan registry and the generations.
 Each method is the body of one critical section and is proved to be one step of the machine
 in `Coordinator`.
 */
module FileService {
  import opened Listing
  import opened Coordinator

  class RecursiveScan {
    const key: Key
    const identity: nat
    const generation: nat
    var waiters: int
    var followup: RecursiveScan?
    var canceled: bool
    var done: bool
    var entries: seq<FileEntry>
    var err: Option<Err>
    /** Position in creation order, and what the executor has seen or returned. */
    ghost const index: nat
    ghost var phase: Phase

    constructor (key: Key, identity: nat, generation: nat, ghost index: nat)
      ensures this.key == key && this.identity == identity && this.generation == generation && this.index == index
      ensures Valid() && followup == null && Value() == Scan(key, identity, generation, 0, None, false, Running([]))
    {
      this.key, this.identity, this.generation, this.index := key, identity, generation, index;
      waiters, followup, canceled, done, entries, err := 0, null, false, false, [], None;
      phase := Running([]);
    }

    ghost predicate Valid()
      reads this
    {
      match phase
      case Running(_) => !done
      case Done(result, _) => done && result == if err.Some? then Broke(err.value) else Listed(entries)
    }

    ghost function Value(): Scan
      reads this
    {
      Scan(key, identity, generation, waiters, if followup == null then None else Some(followup.index), canceled, phase)
    }

    /** Publishes the executor's result and closes `done`. */
    method Close(entries: seq<FileEntry>, err: Option<Err>, ghost order: nat)
      modifies this
      ensures Valid()
      ensures Value() == old(Value()).(phase := Done(if err.Some? then Broke(err.value) else Listed(entries), order))
      ensures followup == old(followup)
    {
      this.entries, this.err := entries, err;
      done := true;
      phase := Done(if err.Some? then Broke(err.value) else Listed(entries), order);
    }
  }

  class Service {
    var recursiveScans: map<Key, RecursiveScan>
    var cacheGenerationByRoot: map<string, nat>
    /** Every scan ever created, in creation order, and how many executors have returned. */
    ghost var scans: seq<RecursiveScan>
    ghost var finished: nat

    constructor ()
      ensures Valid() && scans == [] && recursiveScans == map[] && cacheGenerationByRoot == map[] && finished == 0
    {
      recursiveScans, cacheGenerationByRoot, scans, finished := map[], map[], [], 0;
    }

    ghost predicate Owns(scan: RecursiveScan)
      reads this
    {
      scan.index < |scans| && scans[scan.index] == scan
    }

    ghost predicate Valid()
      reads this, scans
    {
      && (forall i :: 0 <= i < |scans| ==> scans[i].index == i && scans[i].Valid())
      && (forall i :: 0 <= i < |scans| && scans[i].followup != null ==> Owns(scans[i].followup))
      && (forall k :: k in recursiveScans ==> Owns(recursiveScans[k]))
    }

    /** The shared state of the machine, for a given state of the file system. */
    ghost function View(world: Shared): Shared
      reads this, scans
    {
      world.(scans := seq(|scans|, i requires 0 <= i < |scans| reads this, scans => scans[i].Value()),
        active := map k | k in recursiveScans :: recursiveScans[k].index,
                                                   finished := finished,
                                                   gens := cacheGenerationByRoot)
    }

    ghost function IndexOf(scan: RecursiveScan?): Option<nat> { if scan == null then None else Some(scan.index) }

    lemma JoinAllowed(world: Shared, key: Key, previous: RecursiveScan?)
      requires Valid() && (previous != null ==> Owns(previous))
      ensures CanJoin(View(world), key, IndexOf(previous))
    {}

    /** Puts a new scan, which no caller waits for yet, under its key. */
    method Register(scan: RecursiveScan, ghost world: Shared)
      requires Valid() && scan.index == |scans| && scan.Valid() && scan.followup == null
      requires scan.Value() ==
               Scan(scan.key, scan.identity, Gen(View(world), scan.key.root), 0, None, false, Running([]))
      modifies this
      ensures Valid() && scans == old(scans) + [scan] && Owns(scan)
      ensures View(world) == old(Open(View(world), scan.key, scan.identity))
    {
      ghost var before := View(world);
      recursiveScans := recursiveScans[scan.key := scan];
      scans := scans + [scan];
      assert View(world).scans == Open(before, scan.key, scan.identity).scans;
    }

    method OpenScan(key: Key, identity: nat, ghost world: Shared) returns (scan: RecursiveScan)
      requires Valid()
      modifies this
      ensures Valid() && fresh(scan) && scans == old(scans) + [scan] && Owns(scan)
      ensures View(world) == old(Open(View(world), key, identity))
    {
      var generation := if key.root in cacheGenerationByRoot then cacheGenerationByRoot[key.root] else 0;
      scan := new RecursiveScan(key, identity, generation, |scans|);
      Register(scan, world);
    }

    method LinkFollowup(previous: RecursiveScan?, scan: RecursiveScan, ghost world: Shared)
      requires Valid() && Owns(scan) && (previous != null ==> Owns(previous))
      modifies previous
      ensures Valid()
      ensures View(world) == old(Link(View(world), IndexOf(previous), scan.index))
    {
      ghost var before := View(world);
      if previous != null {
        previous.followup := scan;
        assert View(world).scans == Link(before, IndexOf(previous), scan.index).scans;
      }
    }

    method AddWaiter(scan: RecursiveScan, ghost world: Shared)
      requires Valid() && Owns(scan)
      modifies scan
      ensures Valid()
      ensures View(world) == old(AddWaiters(View(world), scan.index, 1))
    {
      ghost var before := View(world);
      scan.waiters := scan.waiters + 1;
      assert View(world).scans == AddWaiters(before, scan.index, 1).scans;
    }

    method JoinRecursiveScan(key: Key, identity: nat, previous: RecursiveScan?,
                             ghost world: Shared) returns (scan: RecursiveScan, shouldStart: bool)
      requires Valid() && (previous != null ==> Owns(previous))
      modifies this, scans
      ensures Valid() && Owns(scan)
      ensures old(CanJoin(View(world), key, IndexOf(previous)))
      ensures (View(world), scan.index) == old(Joined(View(world), key, identity, IndexOf(previous)))
      ensures shouldStart == old(Target(View(world), key, IndexOf(previous)).None?)
    {
      JoinAllowed(world, key, previous);
      var found: RecursiveScan? := if key in recursiveScans then recursiveScans[key] else null;
      if previous != null && previous.followup != null {
        found := previous.followup;
      }
      assert IndexOf(found) == Target(View(world), key, IndexOf(previous));
      shouldStart := found == null;
      if found == null {
        scan := OpenScan(key, identity, world);
      } else {
        scan := found;
      }
      LinkFollowup(previous, scan, world);
      AddWaiter(scan, world);
    }

    /** The critical section of leaveRecursiveScan; the caller cancels afterwards when it was last. */
    method LeaveRecursiveScan(scan: RecursiveScan, ghost world: Shared) returns (isLast: bool)
      requires Valid() && Owns(scan)
      modifies scan
      ensures Valid()
      ensures View(world) == old(AddWaiters(View(world), scan.index, -1))
      ensures isLast == (old(View(world)).scans[scan.index].waiters - 1 == 0)
    {
      ghost var before := View(world);
      scan.waiters := scan.waiters - 1;
      isLast := scan.waiters == 0;
      assert View(world).scans == AddWaiters(before, scan.index, -1).scans;
    }

    method CancelScan(scan: RecursiveScan, ghost world: Shared)
      requires Valid() && Owns(scan)
      modifies scan
      ensures Valid()
      ensures View(world) == old(MarkCanceled(View(world), scan.index))
    {
      ghost var before := View(world);
      scan.canceled := true;
      assert View(world).scans == MarkCanceled(before, scan.index).scans;
    }

    /** The critical section of executeRecursiveScan, after the listing code has returned. */
    method FinishRecursiveScan(scan: RecursiveScan, entries: seq<FileEntry>, err: Option<Err>, ghost lister: Lister,
                               ghost world: Shared)
      requires Valid() && Owns(scan) && CanFinish(View(world), scan.index, err)
      requires err.None? ==> entries == lister.assemble(scan.phase.seen, scan.key.path)
      modifies this, scan
      ensures Valid()
      ensures View(world) == old(Finished(View(world), lister, scan.index, err))
    {
      ghost var before := View(world);
      scan.Close(entries, err, finished);
      recursiveScans := recursiveScans - {scan.key};
      finished := finished + 1;
      assert View(world).scans == Finished(before, lister, scan.index, err).scans;
      assert View(world).active == before.active - {scan.key};
    }

    /** The generation check of waitRecursiveSnapshot. */
    method IsDirty(key: Key, scan: RecursiveScan, ghost world: Shared) returns (isDirty: bool)
      requires Valid() && Owns(scan)
      ensures isDirty == (Gen(View(world), key.root) != View(world).scans[scan.index].generation)
    {
      isDirty := (if key.root in cacheGenerationByRoot then cacheGenerationByRoot[key.root] else 0) != scan.generation;
    }

    /** The generation half of InvalidateWorkspacePaths; `tree` is what the root holds now. */
    method Invalidate(root: string, ghost tree: Tree, ghost world: Shared)
      requires Valid()
      modifies this`cacheGenerationByRoot
      ensures Valid()
      ensures View(world.(trees := world.trees[root := tree])) == old(AfterOutside(View(world), Change(root, tree)))
    {
      var generation := if root in cacheGenerationByRoot then cacheGenerationByRoot[root] else 0;
      cacheGenerationByRoot := cacheGenerationByRoot[root := generation + 1];
    }
  }
}
