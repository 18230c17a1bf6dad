/** Why the shallow cache agrees with the tree, entry by entry, over every run of `CachedListing`. */
module CacheAgreement {
  import opened Listing
  import opened CachePaths
  import opened DirectoryCache
  import opened CachedListing

  // ---- Readers of every run ----

  /** Identities and generations that a reader has read are not ahead of the root's. */
  predicate Behind(s: State, reader: Reader) {
    && reader.identity <= Identity(s, reader.root) && reader.firstIdentity <= Identity(s, reader.first)
    && reader.since <= Gen(s, reader.first)
    && (reader.first == reader.root ==> reader.firstIdentity <= reader.identity)
    && (reader.pc.Reading? || reader.pc.Storing? ==> reader.pc.generation <= Gen(s, reader.root))
  }

  ghost predicate ReadersOk(s: State, listed: Paths) {
    forall r :: r in s.readers ==> Behind(s, s.readers[r]) && listed(s.readers[r].path) && Listable(s.readers[r].path)
  }

  lemma OwnBehind(s: State, lister: Lister, e: Event)
    requires Enabled(s, lister, e) && AboutReader(e) && (!e.Begin? ==> Behind(s, s.readers[e.r]))
    ensures Behind(s, ReaderAfter(s, lister, e))
  {}

  /** Generations and identities never decrease. */
  lemma OnlyUp(s: State, lister: Lister, e: Event, root: string)
    requires Enabled(s, lister, e)
    ensures Gen(s, root) <= Gen(Apply(s, lister, e), root) && Identity(s, root) <= Identity(Apply(s, lister, e), root)
  {}

  lemma BehindStays(s: State, lister: Lister, e: Event, reader: Reader)
    requires Behind(s, reader) && Enabled(s, lister, e)
    ensures Behind(Apply(s, lister, e), reader)
  {
    OnlyUp(s, lister, e, reader.root);
    OnlyUp(s, lister, e, reader.first);
  }

  lemma ReadersOkKept(s: State, lister: Lister, e: Event, listed: Paths, announced: Paths)
    requires ReadersOk(s, listed) && Enabled(s, lister, e) && Speaks(e, listed, announced)
    ensures ReadersOk(Apply(s, lister, e), listed)
  {
    var t := Apply(s, lister, e);
    forall r | r in t.readers
      ensures Behind(t, t.readers[r]) && listed(t.readers[r].path) && Listable(t.readers[r].path)
    {
      if AboutReader(e) && e.r == r {
        OwnBehind(s, lister, e);
        BehindStays(s, lister, e, t.readers[r]);
      } else {
        BehindStays(s, lister, e, s.readers[r]);
      }
    }
  }

  ghost predicate AllSpeak(events: seq<Event>, listed: Paths, announced: Paths) {
    forall k :: 0 <= k < |events| ==> Speaks(events[k], listed, announced)
  }

  lemma {:induction false} RunReaders(lister: Lister, states: seq<State>, events: seq<Event>, listed: Paths,
                                      announced: Paths, i: nat)
    requires Steps(lister, states, events) && AllSpeak(events, listed, announced) && i < |states|
    requires ReadersOk(states[0], listed)
    ensures ReadersOk(states[i], listed)
  {
    if i > 0 {
      RunReaders(lister, states, events, listed, announced, i - 1);
      assert IsStep(lister, states[i - 1], events[i - 1], states[i]) && Speaks(events[i - 1], listed, announced);
      ReadersOkKept(states[i - 1], lister, events[i - 1], listed, announced);
    }
  }

  // ---- What one entry needs ----

  ghost predicate Agrees(s: State, lister: Lister, root: string, path: string) {
    Hit(s, root, path).Some? ==> Hit(s, root, path).value == lister.list(TreeIn(s.trees, root), Where(path))
  }

  /** A reader that stores under the same entry as `path`. */
  predicate SameEntry(reader: Reader, root: string, path: string) {
    reader.root == root && Cacheable(reader.path) && NormalizeCachePath(reader.path) == NormalizeCachePath(path)
  }

  /** The entry of a path is empty, and no reader is about to fill it with what it has read before. */
  ghost predicate Vacant(s: State, root: string, path: string) {
    Cacheable(path) ==>
      && Hit(s, root, path).None?
      && forall r :: r in s.readers && SameEntry(s.readers[r], root, path) ==> !Stores(s, s.readers[r])
  }

  /**
   While neither generation nor identity has moved, a reader has seen the current tree only; what it is about to
   store is current as long as the generation lasts, even if the identity has moved since.
   */
  ghost predicate Current(s: State, lister: Lister, reader: Reader) {
    var tree := TreeIn(s.trees, reader.root);
    && (reader.pc.Reading? && reader.pc.generation == Gen(s, reader.root)
        && reader.identity == Identity(s, reader.root) ==>
          Steady(reader.pc.seen, tree))
    && (Stores(s, reader) ==> reader.pc.entries == lister.list(tree, Where(reader.path)))
  }

  /** The invariant of one entry. */
  ghost predicate EntryInv(s: State, lister: Lister, root: string, path: string) {
    && Agrees(s, lister, root, path)
    && forall r :: r in s.readers && SameEntry(s.readers[r], root, path) ==> Current(s, lister, s.readers[r])
  }

  // ---- What each step does to an entry ----

  lemma KeptIff(workspaces: map<string, Listings>, root: string, paths: seq<string>, path: string)
    ensures Cached(Invalidated(workspaces, root, paths), root, path) ==
            if DropsAny(paths, NormalizeCachePath(path)) then None else Cached(workspaces, root, path)
  {
    if root in workspaces {
      var kept := Kept(workspaces[root], paths);
      assert NormalizeCachePath(path) in kept ==> kept != map[];
    }
  }

  lemma DroppedIff(s: State, lister: Lister, e: Event, path: string)
    requires e.Change? && Enabled(s, lister, e) && Cacheable(path)
    ensures Hit(Apply(s, lister, e), e.root, path) ==
            if DropsAny(e.paths, NormalizeCachePath(path)) then None else Hit(s, e.root, path)
  {
    KeptIff(s.workspaces, e.root, e.paths, path);
  }

  lemma NotAltered(paths: seq<string>, path: string, listed: Paths, announced: Paths)
    requires Reaches(listed, announced) && listed(path) && Cacheable(path)
    requires forall k :: 0 <= k < |paths| ==> announced(paths[k]) && Resolves(paths[k])
    requires !DropsAny(paths, NormalizeCachePath(path))
    ensures !AltersAny(paths, Where(path))
  {
    forall k | 0 <= k < |paths| ensures !Alters(Where(paths[k]), Where(path)) {
      assert !Drops(paths[k], NormalizeCachePath(path));
    }
  }

  lemma ChangeAgrees(s: State, lister: Lister, e: Event, path: string, listed: Paths, announced: Paths)
    requires e.Change? && Enabled(s, lister, e) && Speaks(e, listed, announced) && Reaches(listed, announced)
    requires listed(path) && Agrees(s, lister, e.root, path)
    ensures Agrees(Apply(s, lister, e), lister, e.root, path)
  {
    if Cacheable(path) {
      DroppedIff(s, lister, e, path);
      WhereIsDirectory(path);
      if !DropsAny(e.paths, NormalizeCachePath(path)) {
        NotAltered(e.paths, path, listed, announced);
      }
    }
  }

  /** Storing sets the entry of the reader's path and no other. */
  lemma StoredHit(s: State, lister: Lister, r: nat, root: string, path: string)
    requires Enabled(s, lister, Store(r)) && Listable(s.readers[r].path) && Cacheable(path)
    ensures Hit(Apply(s, lister, Store(r)), root, path) ==
            if Stores(s, s.readers[r]) && SameEntry(s.readers[r], root, path) then Some(s.readers[r].pc.entries)
            else Hit(s, root, path)
  {}

  lemma StoreAgrees(s: State, lister: Lister, r: nat, root: string, path: string, listed: Paths)
    requires EntryInv(s, lister, root, path) && Enabled(s, lister, Store(r)) && Separates(listed) && listed(path)
    requires listed(s.readers[r].path) && Listable(s.readers[r].path)
    ensures Agrees(Apply(s, lister, Store(r)), lister, root, path)
  {
    if Cacheable(path) {
      StoredHit(s, lister, r, root, path);
      if SameEntry(s.readers[r], root, path) {
        assert Current(s, lister, s.readers[r]) && Where(s.readers[r].path) == Where(path);
      }
    }
  }

  lemma OthersLeaveEntry(s: State, lister: Lister, e: Event, root: string, path: string)
    requires Enabled(s, lister, e) && !e.Store? && !((e.Change? || e.Replace?) && e.root == root)
    ensures Hit(Apply(s, lister, e), root, path) == Hit(s, root, path)
    ensures TreeIn(Apply(s, lister, e).trees, root) == TreeIn(s.trees, root)
  {
    if e.Change?
       && root in s.workspaces { assert Invalidated(s.workspaces, e.root, e.paths)[root] == s.workspaces[root]; }
  }

  /** What a step must not do: replace the root while the entry is not vacant. */
  ghost predicate Spares(s: State, e: Event, root: string, path: string) {
    e.Replace? && e.root == root ==> Vacant(s, root, path)
  }

  lemma AgreesKept(s: State, lister: Lister, e: Event, root: string, path: string, listed: Paths, announced: Paths)
    requires EntryInv(s, lister, root, path) && ReadersOk(s, listed) && Compatible(listed, announced) && listed(path)
    requires Enabled(s, lister, e) && Speaks(e, listed, announced) && Spares(s, e, root, path)
    ensures Agrees(Apply(s, lister, e), lister, root, path)
  {
    if e.Change? && e.root == root {
      ChangeAgrees(s, lister, e, path, listed, announced);
    } else if e.Store? {
      StoreAgrees(s, lister, e.r, root, path, listed);
    } else if !(e.Replace? && e.root == root) {
      OthersLeaveEntry(s, lister, e, root, path);
    }
  }

  lemma ReadCurrent(s: State, lister: Lister, reader: Reader)
    requires Faithful(lister) && Current(s, lister, reader) && reader.identity == Identity(s, reader.root)
    requires reader.pc.Reading? && reader.pc.seen != []
    ensures var entries := lister.assemble(reader.pc.seen, Where(reader.path));
            Current(s, lister, reader.(pc := Storing(reader.pc.generation, entries)))
  {}

  lemma ObserveCurrent(s: State, lister: Lister, reader: Reader)
    requires Current(s, lister, reader) && reader.pc.Reading? && !UsesContextLink(reader.path)
    ensures var seen := reader.pc.seen + [Sight(s, reader.root, reader.path)];
            Current(s, lister, reader.(pc := Reading(reader.pc.generation, seen)))
  {}

  lemma OwnCurrent(s: State, lister: Lister, e: Event)
    requires Faithful(lister) && Enabled(s, lister, e) && AboutReader(e)
    requires !e.Begin? && !e.Open? ==> Current(s, lister, s.readers[e.r]) && !UsesContextLink(s.readers[e.r].path)
    ensures Current(s, lister, ReaderAfter(s, lister, e))
  {
    if e.FinishRead? {
      ReadCurrent(s, lister, s.readers[e.r]);
    } else if e.Observe? {
      ObserveCurrent(s, lister, s.readers[e.r]);
    }
  }

  /** A change voids what was read before it; a replacement voids it unless it is about to be stored. */
  lemma OutsideCurrent(s: State, lister: Lister, e: Event, reader: Reader)
    requires Enabled(s, lister, e) && !AboutReader(e) && Behind(s, reader) && Current(s, lister, reader)
    requires e.Replace? && e.root == reader.root ==> !Stores(s, reader)
    ensures Current(Apply(s, lister, e), lister, reader)
  {}

  lemma ReaderStepCurrent(s: State, lister: Lister, e: Event, reader: Reader)
    requires Enabled(s, lister, e) && AboutReader(e) && Current(s, lister, reader)
    ensures Current(Apply(s, lister, e), lister, reader)
  {}

  lemma OneCurrentKept(s: State, lister: Lister, e: Event, r: nat, root: string, path: string, listed: Paths)
    requires Faithful(lister) && EntryInv(s, lister, root, path) && ReadersOk(s, listed) && Cacheable(path)
    requires Enabled(s, lister, e) && Spares(s, e, root, path)
    ensures var t := Apply(s, lister, e);
            r in t.readers && SameEntry(t.readers[r], root, path) ==> Current(t, lister, t.readers[r])
  {
    var t := Apply(s, lister, e);
    if r in t.readers && SameEntry(t.readers[r], root, path) {
      if AboutReader(e) && e.r == r {
        OwnCurrent(s, lister, e);
        ReaderStepCurrent(s, lister, e, t.readers[r]);
      } else if AboutReader(e) {
        ReaderStepCurrent(s, lister, e, s.readers[r]);
      } else {
        OutsideCurrent(s, lister, e, s.readers[r]);
      }
    }
  }

  lemma EntryKept(s: State, lister: Lister, e: Event, root: string, path: string, listed: Paths, announced: Paths)
    requires Faithful(lister) && EntryInv(s, lister, root, path) && ReadersOk(s, listed)
    requires Compatible(listed, announced) && listed(path) && Cacheable(path)
    requires Enabled(s, lister, e) && Speaks(e, listed, announced) && Spares(s, e, root, path)
    ensures EntryInv(Apply(s, lister, e), lister, root, path)
  {
    var t := Apply(s, lister, e);
    AgreesKept(s, lister, e, root, path, listed, announced);
    forall r | r in t.readers && SameEntry(t.readers[r], root, path) ensures Current(t, lister, t.readers[r]) {
      OneCurrentKept(s, lister, e, r, root, path, listed);
    }
  }

  /** Readers and changes speak of these paths, and the root is replaced only while the entry of `path` is vacant. */
  ghost predicate Spoken(lister: Lister, states: seq<State>, events: seq<Event>, root: string, path: string,
                         listed: Paths, announced: Paths) {
    && Steps(lister, states, events) && AllSpeak(events, listed, announced)
    && forall k :: 0 <= k < |events| ==> Spares(states[k], events[k], root, path)
  }

  lemma {:induction false} RunInv(lister: Lister, states: seq<State>, events: seq<Event>, root: string, path: string,
                                  listed: Paths, announced: Paths, i: nat)
    requires Spoken(lister, states, events, root, path, listed, announced) && Compatible(listed, announced)
    requires Faithful(lister) && listed(path) && Cacheable(path) && i < |states|
    requires ReadersOk(states[0], listed) && EntryInv(states[0], lister, root, path)
    ensures ReadersOk(states[i], listed) && EntryInv(states[i], lister, root, path)
  {
    RunReaders(lister, states, events, listed, announced, i);
    if i > 0 {
      RunInv(lister, states, events, root, path, listed, announced, i - 1);
      assert IsStep(lister, states[i - 1], events[i - 1], states[i]) && Speaks(events[i - 1], listed, announced);
      assert Spares(states[i - 1], events[i - 1], root, path);
      EntryKept(states[i - 1], lister, events[i - 1], root, path, listed, announced);
    }
  }

  /**
   The cache refines direct reading: in every reachable state a lookup that hits returns exactly what listing the
   current tree would return.
   */
  lemma CacheRefinesReading(lister: Lister, states: seq<State>, events: seq<Event>, root: string, path: string,
                            listed: Paths, announced: Paths)
    requires Spoken(lister, states, events, root, path, listed, announced) && Compatible(listed, announced)
    requires Faithful(lister) && listed(path) && Initial(states[0])
    ensures Agrees(states[|events|], lister, root, path)
  {
    if Cacheable(path) { RunInv(lister, states, events, root, path, listed, announced, |events|); }
  }

  // ---- Clean paths ----

  /** For clean paths the code drops exactly the directories a change can alter. */
  lemma DropsWhatChanges(path: string, dir: string)
    requires CleanPath(path)
    ensures Drops(path, dir) <==> Alters(Where(path), dir)
  {
    CleanDenotesItself(path);
  }

  /** The change model in segments: a change alters what lies at it or below it, and its parent. */
  lemma AltersMeans(at: string, dir: string)
    requires IsDirectory(at) && IsDirectory(dir)
    ensures Alters(at, dir) <==>
            || SegmentsOf(at) <= SegmentsOf(dir)
            || (at != "" && SegmentsOf(dir) == SegmentsOf(at)[..|SegmentsOf(at)| - 1])
  {
    if at != "" {
      InsideMeans(dir, at);
      ParentMeans(at);
      if SegmentsOf(dir) == SegmentsOf(at) { SegmentsDiffer(dir, at); }
      if SegmentsOf(dir) == SegmentsOf(Parent(at)) { SegmentsDiffer(dir, Parent(at)); }
    }
  }

  lemma CleanPathsCompatible()
    ensures Compatible(CleanPath, CleanPath)
  {
    forall q, p | CleanPath(q) && CleanPath(p) && Alters(Where(p), Where(q)) ensures Drops(p, NormalizeCachePath(q)) {
      CleanDenotesItself(q);
      DropsWhatChanges(p, Where(q));
    }
    forall q, r | CleanPath(q) && CleanPath(r) && NormalizeCachePath(q) == NormalizeCachePath(r)
      ensures Where(q) == Where(r)
    {}
  }

  /**
   A change announced by clean paths drops a clean directory's listing exactly when it can alter it; what stays is the
   new tree's.
   */
  lemma InvalidationExact(s: State, lister: Lister, e: Event, dir: string)
    requires e.Change? && Enabled(s, lister, e) && (forall k :: 0 <= k < |e.paths| ==> CleanPath(e.paths[k]))
    requires CleanPath(dir) && Cacheable(dir) && Hit(s, e.root, dir) == Some(lister.list(TreeIn(s.trees, e.root), dir))
    ensures Hit(Apply(s, lister, e), e.root, dir) ==
            if AltersAny(e.paths, dir) then None else Some(lister.list(e.tree, dir))
  {
    DroppedIff(s, lister, e, dir);
    if DropsAny(e.paths, dir) {
      var k :| 0 <= k < |e.paths| && Drops(e.paths[k], dir);
      DropsWhatChanges(e.paths[k], dir);
    }
    if AltersAny(e.paths, dir) {
      var k :| 0 <= k < |e.paths| && Alters(Where(e.paths[k]), dir);
      DropsWhatChanges(e.paths[k], dir);
    }
  }
}
