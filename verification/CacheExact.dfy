/**
 Exactly when the shallow cache agrees with the tree: for which paths of readers and of announced changes, and
 across which replaced roots, with a failing run in every other case.
 */
module CacheExact {
  import opened Listing
  import opened Text
  import opened CachePaths
  import opened DirectoryCache
  import opened CachedListing
  import opened CacheAgreement
  import opened CacheFreshness

  // ---- A lister and a run that fills the cache ----

  function ReadDirectory(tree: Tree, dir: string): seq<FileEntry> { if dir in tree then tree[dir] else [] }

  /** Lists what it saw last. */
  function LastSeen(seen: seq<Tree>, dir: string): seq<FileEntry> {
    if seen == [] then [] else ReadDirectory(seen[|seen| - 1], dir)
  }

  const PLAIN := Lister(ReadDirectory, LastSeen)

  const ENTRY := FileEntry("f", "f", false, false, 0, 0, "")

  lemma PlainIsFaithful()
    ensures Faithful(PLAIN)
  {}

  /** Nothing is cached and nobody reads. */
  function Empty(root: string, tree: Tree): State { State(map[], map[], map[], map[root := tree], map[], map[], map[]) }

  function ReaderAt(root: string, path: string, pc: Pc): Reader { Reader(root, path, root, 0, 0, root, 0, pc) }

  function Filling(root: string, tree: Tree, path: string, pc: Pc): State {
    Empty(root, tree).(readers := map[0 := ReaderAt(root, path, pc)])
  }

  /** One reader has listed `path` and stored what it saw. */
  function Filled(root: string, tree: Tree, path: string): State {
    var entries := ReadDirectory(tree, Where(path));
    Filling(root, tree, path, Checking(entries)).(workspaces := Stored(map[], root, path, entries))
  }

  function Fills(root: string, path: string): seq<Event> {
    [Begin(0, root, path), Open(0), Lookup(0), Observe(0), FinishRead(0), Store(0)]
  }

  // ---- Runs, step by step ----

  ghost predicate IsPath(lister: Lister, states: seq<State>, events: seq<Event>, s: State, t: State) {
    Steps(lister, states, events) && states[0] == s && states[|events|] == t
  }

  /** `events` can take `s` to `t`. */
  ghost predicate Leads(lister: Lister, s: State, events: seq<Event>, t: State) {
    exists states :: IsPath(lister, states, events, s, t)
  }

  lemma NoStep(lister: Lister, s: State)
    ensures Leads(lister, s, [], s)
  {
    assert IsPath(lister, [s], [], s, s);
  }

  lemma OneMore(lister: Lister, s: State, events: seq<Event>, t: State, e: Event, u: State)
    requires Leads(lister, s, events, t) && IsStep(lister, t, e, u)
    ensures Leads(lister, s, events + [e], u)
  {
    var states :| IsPath(lister, states, events, s, t);
    var more, all := states + [u], events + [e];
    forall k | 0 <= k < |all| ensures IsStep(lister, more[k], all[k], more[k + 1]) {
      if k < |events| { assert IsStep(lister, states[k], events[k], states[k + 1]); }
    }
    assert IsPath(lister, more, all, s, u);
  }

  lemma BeginStep(root: string, tree: Tree, path: string)
    requires Cacheable(path)
    ensures IsStep(PLAIN, Empty(root, tree), Begin(0, root, path), Filling(root, tree, path, Opening))
  {}

  lemma OpenStep(root: string, tree: Tree, path: string)
    requires Cacheable(path)
    ensures IsStep(PLAIN, Filling(root, tree, path, Opening), Open(0), Filling(root, tree, path, Starting))
  {}

  lemma LookupStep(root: string, tree: Tree, path: string)
    requires Cacheable(path)
    ensures IsStep(PLAIN, Filling(root, tree, path, Starting), Lookup(0), Filling(root, tree, path, Reading(0, [])))
  {}

  lemma ObserveStep(root: string, tree: Tree, path: string)
    requires Cacheable(path)
    ensures IsStep(PLAIN, Filling(root, tree, path, Reading(0, [])), Observe(0),
                   Filling(root, tree, path, Reading(0, [tree])))
  {
    var nothing: seq<Tree> := [];
    assert nothing + [tree] == [tree];
  }

  lemma ReadStep(root: string, tree: Tree, path: string)
    requires Cacheable(path)
    ensures var entries := ReadDirectory(tree, Where(path));
            IsStep(PLAIN, Filling(root, tree, path, Reading(0, [tree])), FinishRead(0),
                   Filling(root, tree, path, Storing(0, entries)))
  {}

  lemma StoreStep(root: string, tree: Tree, path: string)
    requires Cacheable(path)
    ensures IsStep(PLAIN, Filling(root, tree, path, Storing(0, ReadDirectory(tree, Where(path)))), Store(0),
                   Filled(root, tree, path))
  {}

  /** Up to the store. */
  lemma FillsRead(root: string, tree: Tree, path: string)
    requires Cacheable(path)
    ensures Leads(PLAIN, Empty(root, tree), Fills(root, path)[..5],
                  Filling(root, tree, path, Storing(0, ReadDirectory(tree, Where(path)))))
  {
    var s, entries := Empty(root, tree), ReadDirectory(tree, Where(path));
    var events := [Begin(0, root, path)];
    NoStep(PLAIN, s);
    BeginStep(root, tree, path);
    OneMore(PLAIN, s, [], s, Begin(0, root, path), Filling(root, tree, path, Opening));
    assert [] + events == events;
    OpenStep(root, tree, path);
    OneMore(PLAIN, s, events, Filling(root, tree, path, Opening), Open(0), Filling(root, tree, path, Starting));
    LookupStep(root, tree, path);
    OneMore(PLAIN, s, events + [Open(0)], Filling(root, tree, path, Starting), Lookup(0),
            Filling(root, tree, path, Reading(0, [])));
    ObserveStep(root, tree, path);
    OneMore(PLAIN, s, events + [Open(0)] + [Lookup(0)], Filling(root, tree, path, Reading(0, [])), Observe(0),
            Filling(root, tree, path, Reading(0, [tree])));
    ReadStep(root, tree, path);
    OneMore(PLAIN, s, events + [Open(0)] + [Lookup(0)] + [Observe(0)], Filling(root, tree, path, Reading(0, [tree])),
            FinishRead(0), Filling(root, tree, path, Storing(0, entries)));
    assert events + [Open(0)] + [Lookup(0)] + [Observe(0)] + [FinishRead(0)] == Fills(root, path)[..5];
  }

  lemma FillRun(root: string, tree: Tree, path: string)
    requires Cacheable(path)
    ensures Leads(PLAIN, Empty(root, tree), Fills(root, path), Filled(root, tree, path))
  {
    FillsRead(root, tree, path);
    StoreStep(root, tree, path);
    var entries := ReadDirectory(tree, Where(path));
    OneMore(PLAIN, Empty(root, tree), Fills(root, path)[..5], Filling(root, tree, path, Storing(0, entries)), Store(0),
            Filled(root, tree, path));
    assert Fills(root, path)[..5] + [Store(0)] == Fills(root, path);
  }

  /** A run from an initial state. */
  lemma RunFrom(lister: Lister, s: State, events: seq<Event>, t: State) returns (states: seq<State>)
    requires Leads(lister, s, events, t) && Initial(s)
    ensures IsRun(lister, states, events) && states[|events|] == t
  {
    states :| IsPath(lister, states, events, s, t);
  }

  // ---- Runs that fail ----

  /** A change is announced by a path that does not drop the entry of what it alters. */
  lemma StaleRun(root: string, q: string, p: string) returns (states: seq<State>, events: seq<Event>)
    requires Cacheable(q) && Resolves(p) && Alters(Where(p), Where(q)) && !Drops(p, NormalizeCachePath(q))
    ensures IsRun(PLAIN, states, events) && !Agrees(states[|events|], PLAIN, root, q)
    ensures events == Fills(root, q) + [Change(root, [p], map[Where(q) := [ENTRY]], map[])]
  {
    var e := Change(root, [p], map[Where(q) := [ENTRY]], map[]);
    var s := Filled(root, map[], q);
    StaleStep(root, q, p);
    FillRun(root, map[], q);
    events := Fills(root, q) + [e];
    OneMore(PLAIN, Empty(root, map[]), Fills(root, q), s, e, Apply(s, PLAIN, e));
    states := RunFrom(PLAIN, Empty(root, map[]), events, Apply(s, PLAIN, e));
  }

  lemma StaleStep(root: string, q: string, p: string)
    requires Cacheable(q) && Resolves(p) && Alters(Where(p), Where(q)) && !Drops(p, NormalizeCachePath(q))
    ensures var s, e := Filled(root, map[], q), Change(root, [p], map[Where(q) := [ENTRY]], map[]);
            Enabled(s, PLAIN, e) && !Agrees(Apply(s, PLAIN, e), PLAIN, root, q)
  {
    var s, e := Filled(root, map[], q), Change(root, [p], map[Where(q) := [ENTRY]], map[]);
    StaleEnabled(root, q, p);
    DroppedIff(s, PLAIN, e, q);
    assert DropsAny([p], NormalizeCachePath(q)) <==> Drops(p, NormalizeCachePath(q));
    assert Hit(s, root, q) == Some([]);
  }

  lemma StaleEnabled(root: string, q: string, p: string)
    requires Cacheable(q) && Resolves(p) && Alters(Where(p), Where(q))
    ensures Enabled(Filled(root, map[], q), PLAIN, Change(root, [p], map[Where(q) := [ENTRY]], map[]))
  {
    var paths := [p];
    assert Alters(Where(paths[0]), Where(q));
  }

  /** Two directories share an entry, and one is served the listing of the other. */
  lemma SharedRun(root: string, q: string, r: string) returns (states: seq<State>)
    requires Cacheable(q) && Cacheable(r) && NormalizeCachePath(q) == NormalizeCachePath(r) && Where(q) != Where(r)
    ensures IsRun(PLAIN, states, Fills(root, r)) && !Agrees(states[6], PLAIN, root, q)
  {
    var tree := map[Where(q) := [ENTRY]];
    FillRun(root, tree, r);
    states := RunFrom(PLAIN, Empty(root, tree), Fills(root, r), Filled(root, tree, r));
    assert Hit(Filled(root, tree, r), root, q) == Some([]);
  }

  /** Listing `./a`, then a change announced as `a`: the entry of `./a` stays and is stale. */
  lemma DotPathGoesStale(root: string) returns (states: seq<State>, events: seq<Event>)
    ensures IsRun(PLAIN, states, events) && !Agrees(states[|events|], PLAIN, root, "./a") && Where("./a") == "a"
    ensures events == Fills(root, "./a") + [Change(root, ["a"], map["a" := [ENTRY]], map[])]
  {
    DotPaths();
    states, events := StaleRun(root, "./a", "a");
  }

  lemma DotPaths()
    ensures Resolve("./a") == Some(["a"]) && Where("./a") == "a" && NormalizeCachePath("./a") == "./a"
    ensures Resolves("a") && Where("a") == "a" && NormalizeCachePath("a") == "a"
  {
    SplitWhole("a", '/');
    SplitFirst(".", "a", '/');
    assert "." + ['/'] + "a" == "./a";
    TidyIff("./a");
    TidyIff("a");
    assert CleanPath("a");
    CleanDenotesItself("a");
    WalkStraight(["a"], []);
    assert [".", "a"][1..] == ["a"] && [] + ["a"] == ["a"];
    assert Trim("./a", IsSpace) == "./a" by { TrimLength("./a", IsSpace); }
  }

  // ---- The exact condition ----

  /** Whatever the listing code and the run, every hit for a path of `listed` is what reading the directory returns. */
  ghost predicate AlwaysAgrees(root: string, listed: Paths, announced: Paths) {
    forall lister, states, events, path ::
      Faithful(lister) && listed(path) && Spoken(lister, states, events, root, path, listed, announced)
      && Initial(states[0]) ==>
        Agrees(states[|events|], lister, root, path)
  }

  lemma FillsSpeak(root: string, q: string, listed: Paths, announced: Paths, k: nat)
    requires listed(q) && k < 6
    ensures Speaks(Fills(root, q)[k], listed, announced) && !Fills(root, q)[k].Replace?
  {}

  /** A run that ends in disagreement refutes the claim. */
  lemma Refutes(root: string, listed: Paths, announced: Paths, states: seq<State>, events: seq<Event>, path: string)
    requires IsRun(PLAIN, states, events) && listed(path) && !Agrees(states[|events|], PLAIN, root, path)
    requires forall k :: 0 <= k < |events| ==> Speaks(events[k], listed, announced) && !events[k].Replace?
    ensures !AlwaysAgrees(root, listed, announced)
  {
    PlainIsFaithful();
    forall k | 0 <= k < |events| ensures Spares(states[k], events[k], root, path) {
      assert !events[k].Replace?;
    }
    assert Spoken(PLAIN, states, events, root, path, listed, announced);
  }

  lemma UnreachedFails(root: string, listed: Paths, announced: Paths, q: string, p: string)
    requires listed(q) && announced(p) && Cacheable(q) && Resolves(p) && Alters(Where(p), Where(q))
    requires !Drops(p, NormalizeCachePath(q))
    ensures !AlwaysAgrees(root, listed, announced)
  {
    var states, events := StaleRun(root, q, p);
    forall k | 0 <= k < |events| ensures Speaks(events[k], listed, announced) && !events[k].Replace? {
      if k < 6 { FillsSpeak(root, q, listed, announced, k); }
    }
    Refutes(root, listed, announced, states, events, q);
  }

  lemma SharedFails(root: string, listed: Paths, announced: Paths, q: string, r: string)
    requires listed(q) && listed(r) && Cacheable(q) && Cacheable(r)
    requires NormalizeCachePath(q) == NormalizeCachePath(r) && Where(q) != Where(r)
    ensures !AlwaysAgrees(root, listed, announced)
  {
    var events := Fills(root, r);
    var states := SharedRun(root, q, r);
    forall k | 0 <= k < |events| ensures Speaks(events[k], listed, announced) && !events[k].Replace? {
      FillsSpeak(root, r, listed, announced, k);
    }
    Refutes(root, listed, announced, states, events, q);
  }

  /**
   The cache agrees with the tree in every run if and only if every announcement drops the entries of what it
   alters and no two directories share an entry, for any paths readers list and changes announce.
   */
  lemma CacheExactly(root: string, listed: Paths, announced: Paths)
    ensures AlwaysAgrees(root, listed, announced) <==> Compatible(listed, announced)
  {
    if Compatible(listed, announced) {
      forall lister, states, events, path |
        Faithful(lister) && listed(path) && Spoken(lister, states, events, root, path, listed, announced)
        && Initial(states[0])
        ensures Agrees(states[|events|], lister, root, path)
      {
        CacheRefinesReading(lister, states, events, root, path, listed, announced);
      }
    } else if !Reaches(listed, announced) {
      var q, p :| listed(q) && announced(p) && Cacheable(q) && Resolves(p) && Alters(Where(p), Where(q))
                  && !Drops(p, NormalizeCachePath(q));
      UnreachedFails(root, listed, announced, q, p);
    } else {
      var q, r :| listed(q) && listed(r) && Cacheable(q) && Cacheable(r)
                  && NormalizeCachePath(q) == NormalizeCachePath(r) && Where(q) != Where(r);
      SharedFails(root, listed, announced, q, r);
    }
  }

  // ---- One path among clean ones ----

  function Xs(n: nat): string { seq(n, _ => 'x') }

  /** A file new in the directory is announced by its clean path, which drops no entry but the directory's own. */
  lemma ChildDropsNothingElse(dir: string, key: string)
    requires CleanPath(dir) && key != dir
    ensures var p := Child(dir, Xs(|key| + 1)); CleanPath(p) && Resolves(p) && Alters(Where(p), dir) && !Drops(p, key)
  {
    var name := Xs(|key| + 1);
    var p := Child(dir, name);
    CleanChild(dir, name);
    CleanDenotesItself(p);
  }

  predicate CleanOr(q: string, path: string) { CleanPath(path) || path == q }

  /**
   Whatever path is used for a clean directory, beside clean ones: it works if and only if the cache files it under the
   directory's name.
   */
  lemma PathExactly(root: string, q: string)
    requires Cacheable(q) && CleanPath(Where(q))
    ensures AlwaysAgrees(root, path => CleanOr(q, path), CleanPath) <==> NormalizeCachePath(q) == Where(q)
  {
    var listed: Paths := path => CleanOr(q, path);
    CacheExactly(root, listed, CleanPath);
    if NormalizeCachePath(q) == Where(q) {
      KeyedIsCompatible(q, listed);
    } else {
      var dir, key := Where(q), NormalizeCachePath(q);
      ChildDropsNothingElse(dir, key);
      var p := Child(dir, Xs(|key| + 1));
      assert listed(q) && CleanPath(p) && Cacheable(q) && Resolves(p) && Alters(Where(p), Where(q))
             && !Drops(p, NormalizeCachePath(q));
    }
  }

  lemma KeyedIsCompatible(q: string, listed: Paths)
    requires forall path :: listed(path) <==> CleanOr(q, path)
    requires CleanPath(Where(q)) && NormalizeCachePath(q) == Where(q)
    ensures Compatible(listed, CleanPath)
  {
    forall path | listed(path) ensures NormalizeCachePath(path) == Where(path) {
      if path != q { CleanDenotesItself(path); }
    }
    forall path, p | listed(path) && CleanPath(p) && Alters(Where(p), Where(path))
      ensures Drops(p, NormalizeCachePath(path))
    {
      DropsWhatChanges(p, Where(path));
    }
  }

  // ---- A root that is replaced ----

  ghost predicate ListsOtherwise(lister: Lister, dir: string, entries: seq<FileEntry>) {
    exists tree :: lister.list(tree, dir) != entries
  }

  /** Whatever a directory's listing is, some tree lists it otherwise. */
  ghost predicate Discerns(lister: Lister) { forall dir, entries :: ListsOtherwise(lister, dir, entries) }

  /** Listing code that lists what it saw last does so. */
  lemma PlainDiscerns()
    ensures Discerns(PLAIN)
  {
    forall dir, entries ensures ListsOtherwise(PLAIN, dir, entries) {
      var other := if entries == [] then [ENTRY] else [];
      assert PLAIN.list(map[dir := other], dir) != entries;
    }
  }

  /** Whatever is put in the root's place, and whatever follows, every later hit for the path is right. */
  ghost predicate Harmless(s: State, lister: Lister, root: string, path: string, listed: Paths, announced: Paths) {
    forall tree, states, events ::
      Spoken(lister, states, events, root, path, listed, announced)
      && states[0] == Apply(s, lister, Replace(root, tree)) ==>
        Agrees(states[|events|], lister, root, path)
  }

  /** After a replacement on a vacant entry no reader can bring in what it has read before. */
  lemma VacantStartsOver(s: State, lister: Lister, root: string, path: string, tree: Tree, listed: Paths)
    requires ReadersOk(s, listed) && Vacant(s, root, path) && Cacheable(path)
    ensures EntryInv(Apply(s, lister, Replace(root, tree)), lister, root, path)
  {
    var t := Apply(s, lister, Replace(root, tree));
    forall r | r in t.readers && SameEntry(t.readers[r], root, path) ensures Current(t, lister, t.readers[r]) {
      assert Behind(s, s.readers[r]) && !Stores(s, s.readers[r]);
    }
  }

  lemma VacantIsHarmless(s: State, lister: Lister, root: string, path: string, listed: Paths, announced: Paths)
    requires Faithful(lister) && Compatible(listed, announced) && listed(path) && ReadersOk(s, listed)
    requires Vacant(s, root, path)
    ensures Harmless(s, lister, root, path, listed, announced)
  {
    forall tree, states, events |
      Spoken(lister, states, events, root, path, listed, announced)
      && states[0] == Apply(s, lister, Replace(root, tree))
      ensures Agrees(states[|events|], lister, root, path)
    {
      if Cacheable(path) {
        VacantStartsOver(s, lister, root, path, tree, listed);
        ReadersOkKept(s, lister, Replace(root, tree), listed, announced);
        RunInv(lister, states, events, root, path, listed, announced, |events|);
      }
    }
  }

  lemma Harms(s: State, lister: Lister, root: string, path: string, listed: Paths, announced: Paths, tree: Tree,
              states: seq<State>, events: seq<Event>)
    requires Spoken(lister, states, events, root, path, listed, announced)
    requires states[0] == Apply(s, lister, Replace(root, tree)) && !Agrees(states[|events|], lister, root, path)
    ensures !Harmless(s, lister, root, path, listed, announced)
  {}

  lemma SpokenAtOnce(lister: Lister, t: State, root: string, path: string, listed: Paths, announced: Paths)
    ensures Spoken(lister, [t], [], root, path, listed, announced)
  {}

  lemma SpokenStore(lister: Lister, t: State, r: nat, root: string, path: string, listed: Paths, announced: Paths)
    requires Enabled(t, lister, Store(r))
    ensures Spoken(lister, [t, Apply(t, lister, Store(r))], [Store(r)], root, path, listed, announced)
  {
    assert IsStep(lister, t, Store(r), Apply(t, lister, Store(r)));
  }

  /** A cached listing is served at once. */
  lemma CachedHarms(s: State, lister: Lister, root: string, path: string, listed: Paths, announced: Paths)
    requires Discerns(lister) && Hit(s, root, path).Some?
    ensures !Harmless(s, lister, root, path, listed, announced)
  {
    var entries := Hit(s, root, path).value;
    assert ListsOtherwise(lister, Where(path), entries);
    var tree :| lister.list(tree, Where(path)) != entries;
    var t := Apply(s, lister, Replace(root, tree));
    SpokenAtOnce(lister, t, root, path, listed, announced);
    Harms(s, lister, root, path, listed, announced, tree, [t], []);
  }

  /** A listing that has been validated and is about to be stored is served after its store. */
  lemma StoreHarms(s: State, lister: Lister, root: string, path: string, listed: Paths, announced: Paths, r: nat)
    requires Discerns(lister) && ReadersOk(s, listed) && Cacheable(path)
    requires r in s.readers && SameEntry(s.readers[r], root, path) && Stores(s, s.readers[r])
    ensures !Harmless(s, lister, root, path, listed, announced)
  {
    var entries := s.readers[r].pc.entries;
    assert ListsOtherwise(lister, Where(path), entries);
    var tree :| lister.list(tree, Where(path)) != entries;
    var t := Apply(s, lister, Replace(root, tree));
    StoredHit(t, lister, r, root, path);
    SpokenStore(lister, t, r, root, path, listed, announced);
    Harms(s, lister, root, path, listed, announced, tree, [t, Apply(t, lister, Store(r))], [Store(r)]);
  }

  /**
   At every reachable state: putting another directory in a root's place is harmless for a path, whatever it holds and
   whatever follows, if and only if nothing is cached for the path and no reader is about to store under its entry.
   */
  lemma ReplaceExactly(lister: Lister, states: seq<State>, events: seq<Event>, root: string, path: string,
                       listed: Paths, announced: Paths)
    requires IsRun(lister, states, events) && AllSpeak(events, listed, announced) && Faithful(lister)
    requires Discerns(lister)
    requires Compatible(listed, announced) && listed(path)
    ensures Harmless(states[|events|], lister, root, path, listed, announced) <==> Vacant(states[|events|], root, path)
  {
    var s := states[|events|];
    RunReaders(lister, states, events, listed, announced, |events|);
    if Vacant(s, root, path) {
      VacantIsHarmless(s, lister, root, path, listed, announced);
    } else if Hit(s, root, path).Some? {
      CachedHarms(s, lister, root, path, listed, announced);
    } else {
      var r :| r in s.readers && SameEntry(s.readers[r], root, path) && Stores(s, s.readers[r]);
      StoreHarms(s, lister, root, path, listed, announced, r);
    }
  }

  lemma PlainA()
    ensures Cacheable("a") && Where("a") == "a"
  {
    DotPaths();
    assert Resolve("a").value == ["a"] by {
      SplitWhole("a", '/');
      WalkStraight(["a"], []);
      assert [] + ["a"] == ["a"];
    }
  }

  /** The identity is compared within one call only, so a listing stored before is served after. */
  lemma ReplacedRootIsStale(root: string) returns (states: seq<State>, events: seq<Event>)
    ensures IsRun(PLAIN, states, events) && !Agrees(states[|events|], PLAIN, root, "a")
    ensures events == Fills(root, "a") + [Replace(root, map["a" := [ENTRY]])]
  {
    PlainA();
    var s, e := Filled(root, map[], "a"), Replace(root, map["a" := [ENTRY]]);
    FillRun(root, map[], "a");
    events := Fills(root, "a") + [e];
    OneMore(PLAIN, Empty(root, map[]), Fills(root, "a"), s, e, Apply(s, PLAIN, e));
    states := RunFrom(PLAIN, Empty(root, map[]), events, Apply(s, PLAIN, e));
    assert Hit(s, root, "a") == Some([]);
  }

  lemma StoredLater(root: string, path: string)
    requires Cacheable(path)
    ensures var s := Filling(root, map[], path, Storing(0, []));
            var t := Apply(s, PLAIN, Replace(root, map[Where(path) := [ENTRY]]));
            && Hit(s, root, path).None? && Enabled(t, PLAIN, Store(0))
            && !Agrees(Apply(t, PLAIN, Store(0)), PLAIN, root, path)
  {
    var s := Filling(root, map[], path, Storing(0, []));
    var t := Apply(s, PLAIN, Replace(root, map[Where(path) := [ENTRY]]));
    StoredHit(t, PLAIN, 0, root, path);
  }

  /** Nothing is cached when the root is replaced, but a reader that was already validated stores afterwards. */
  lemma StoredAfterReplace(root: string) returns (before: State, states: seq<State>, events: seq<Event>)
    ensures Leads(PLAIN, Empty(root, map[]), Fills(root, "a")[..5], before) && Hit(before, root, "a").None?
    ensures IsRun(PLAIN, states, events) && !Agrees(states[|events|], PLAIN, root, "a")
    ensures Leads(PLAIN, before, [Replace(root, map["a" := [ENTRY]])] + [Store(0)], states[|events|])
    ensures events == Fills(root, "a")[..5] + [Replace(root, map["a" := [ENTRY]])] + [Store(0)]
  {
    PlainA();
    var fills, e := Fills(root, "a")[..5], Replace(root, map["a" := [ENTRY]]);
    before := Filling(root, map[], "a", Storing(0, []));
    var t := Apply(before, PLAIN, e);
    var u := Apply(t, PLAIN, Store(0));
    FillsRead(root, map[], "a");
    StoredLater(root, "a");
    OneMore(PLAIN, Empty(root, map[]), fills, before, e, t);
    OneMore(PLAIN, Empty(root, map[]), fills + [e], t, Store(0), u);
    NoStep(PLAIN, before);
    OneMore(PLAIN, before, [], before, e, t);
    assert [] + [e] == [e];
    OneMore(PLAIN, before, [e], t, Store(0), u);
    events := fills + [e] + [Store(0)];
    states := RunFrom(PLAIN, Empty(root, map[]), events, u);
  }

  // ---- Snapshots reported as fresh that are not ----

  predicate IsCall(reader: Reader, first: string, root: string, path: string) {
    reader.first == first && reader.root == root && reader.path == path
  }

  /** The snapshot is about to be reported fresh, and is not what it was asked for. */
  ghost predicate Misleads(s: State, lister: Lister, r: nat) {
    && Enabled(s, lister, Check(r)) && Gen(s, s.readers[r].first) == s.readers[r].since
    && s.readers[r].pc.entries != lister.list(Sight(s, s.readers[r].first, s.readers[r].path), Where(s.readers[r].path))
  }

  /** The name leads to `a`, then to `b` while the listing code resolves it, then to `a` again. */
  function Flips(name: string, a: string, b: string, path: string): seq<Event> {
    [Begin(0, name, path), Relink(name, b), Open(0), Lookup(0), Observe(0), FinishRead(0), Relink(name, a)]
  }

  function FlipWorld(name: string, a: string, b: string, dir: string, target: string): State {
    var trees: map<string, Tree> := map[a := map[dir := [ENTRY]], b := map[]];
    State(map[], map[], map[], trees, trees, map[], map[name := target])
  }

  function FlipState(name: string, a: string, b: string, path: string, target: string, root: string, pc: Pc): State {
    FlipWorld(name, a, b, Where(path), target).(readers := map[0 := Reader(name, path, a, 0, 0, root, 0, pc)])
  }

  lemma FlipStart(name: string, a: string, b: string, path: string)
    requires Listable(path) && a != b
    ensures IsStep(PLAIN, FlipWorld(name, a, b, Where(path), a), Begin(0, name, path),
                   FlipState(name, a, b, path, a, a, Opening))
  {}

  lemma FlipAway(name: string, a: string, b: string, path: string, root: string, pc: Pc, from: string, to: string)
    ensures IsStep(PLAIN, FlipState(name, a, b, path, from, root, pc), Relink(name, to),
                   FlipState(name, a, b, path, to, root, pc))
  {}

  lemma FlipOpen(name: string, a: string, b: string, path: string)
    requires Listable(path) && a != b
    ensures IsStep(PLAIN, FlipState(name, a, b, path, b, a, Opening), Open(0),
                   FlipState(name, a, b, path, b, b, Starting))
  {}

  lemma FlipLook(name: string, a: string, b: string, path: string)
    requires Listable(path) && a != b
    ensures IsStep(PLAIN, FlipState(name, a, b, path, b, b, Starting), Lookup(0),
                   FlipState(name, a, b, path, b, b, Reading(0, [])))
  {}

  lemma FlipObserve(name: string, a: string, b: string, path: string)
    requires Listable(path) && a != b
    ensures IsStep(PLAIN, FlipState(name, a, b, path, b, b, Reading(0, [])), Observe(0),
                   FlipState(name, a, b, path, b, b, Reading(0, [map[]])))
  {
    var nothing: seq<Tree> := [];
    assert nothing + [map[]] == [map[]];
  }

  lemma FlipRead(name: string, a: string, b: string, path: string)
    requires Listable(path) && a != b
    ensures IsStep(PLAIN, FlipState(name, a, b, path, b, b, Reading(0, [map[]])), FinishRead(0),
                   FlipState(name, a, b, path, b, b, Storing(0, [])))
  {}

  lemma FlipSteps(name: string, a: string, b: string, path: string)
    requires Listable(path) && a != b
    ensures Leads(PLAIN, FlipWorld(name, a, b, Where(path), a), Flips(name, a, b, path),
                  FlipState(name, a, b, path, a, b, Storing(0, [])))
  {
    var s := FlipWorld(name, a, b, Where(path), a);
    var one, two := [Begin(0, name, path)], [Begin(0, name, path)] + [Relink(name, b)];
    NoStep(PLAIN, s);
    FlipStart(name, a, b, path);
    OneMore(PLAIN, s, [], s, Begin(0, name, path), FlipState(name, a, b, path, a, a, Opening));
    assert [] + one == one;
    FlipAway(name, a, b, path, a, Opening, a, b);
    OneMore(PLAIN, s, one, FlipState(name, a, b, path, a, a, Opening), Relink(name, b),
            FlipState(name, a, b, path, b, a, Opening));
    FlipOpen(name, a, b, path);
    OneMore(PLAIN, s, two, FlipState(name, a, b, path, b, a, Opening), Open(0),
            FlipState(name, a, b, path, b, b, Starting));
    FlipReads(name, a, b, path, s, two + [Open(0)]);
    assert two + [Open(0)] + [Lookup(0)] + [Observe(0)] + [FinishRead(0)] + [Relink(name, a)] ==
           Flips(name, a, b, path);
  }

  lemma FlipReads(name: string, a: string, b: string, path: string, s: State, events: seq<Event>)
    requires Listable(path) && a != b && Leads(PLAIN, s, events, FlipState(name, a, b, path, b, b, Starting))
    ensures Leads(PLAIN, s, events + [Lookup(0)] + [Observe(0)] + [FinishRead(0)] + [Relink(name, a)],
                  FlipState(name, a, b, path, a, b, Storing(0, [])))
  {
    FlipLook(name, a, b, path);
    OneMore(PLAIN, s, events, FlipState(name, a, b, path, b, b, Starting), Lookup(0),
            FlipState(name, a, b, path, b, b, Reading(0, [])));
    FlipObserve(name, a, b, path);
    OneMore(PLAIN, s, events + [Lookup(0)], FlipState(name, a, b, path, b, b, Reading(0, [])), Observe(0),
            FlipState(name, a, b, path, b, b, Reading(0, [map[]])));
    FlipRead(name, a, b, path);
    OneMore(PLAIN, s, events + [Lookup(0)] + [Observe(0)], FlipState(name, a, b, path, b, b, Reading(0, [map[]])),
            FinishRead(0), FlipState(name, a, b, path, b, b, Storing(0, [])));
    FlipAway(name, a, b, path, b, Storing(0, []), b, a);
    OneMore(PLAIN, s, events + [Lookup(0)] + [Observe(0)] + [FinishRead(0)],
            FlipState(name, a, b, path, b, b, Storing(0, [])), Relink(name, a),
            FlipState(name, a, b, path, a, b, Storing(0, [])));
  }

  lemma FlipEnds(name: string, a: string, b: string, path: string)
    requires Listable(path) && a != b
    ensures var s := FlipState(name, a, b, path, a, b, Storing(0, []));
            && Enabled(s, PLAIN, Store(0))
            && var t := Apply(s, PLAIN, Store(0));
            0 in t.readers && IsCall(t.readers[0], a, b, path) && Misleads(t, PLAIN, 0)
  {}

  /** For any two roots and any path: a snapshot of one is about to be reported fresh with the other's listing. */
  lemma FlippedRootIsStale(name: string, a: string, b: string, path: string) returns (states: seq<State>)
    requires Listable(path) && a != b
    ensures IsRun(PLAIN, states, Flips(name, a, b, path) + [Store(0)])
    ensures var s := states[8]; 0 in s.readers && IsCall(s.readers[0], a, b, path) && Misleads(s, PLAIN, 0)
  {
    var s, world := FlipState(name, a, b, path, a, b, Storing(0, [])), FlipWorld(name, a, b, Where(path), a);
    FlipSteps(name, a, b, path);
    FlipEnds(name, a, b, path);
    var events := Flips(name, a, b, path) + [Store(0)];
    OneMore(PLAIN, world, Flips(name, a, b, path), s, Store(0), Apply(s, PLAIN, Store(0)));
    states := RunFrom(PLAIN, world, events, Apply(s, PLAIN, Store(0)));
  }

  function DriftState(root: string, path: string, context: Tree, pc: Pc): State {
    State(map[0 := ReaderAt(root, path, pc)], map[], map[], map[], map[root := context], map[], map[])
  }

  function Drifts(root: string, path: string): seq<Event> {
    [Begin(0, root, path), Open(0), Lookup(0), Observe(0), FinishRead(0), Store(0),
     Drift(root, map[Where(path) := [ENTRY]])]
  }

  lemma DriftBegin(root: string, path: string)
    requires Listable(path) && UsesContextLink(path)
    ensures IsStep(PLAIN, State(map[], map[], map[], map[], map[root := map[]], map[], map[]), Begin(0, root, path),
                   DriftState(root, path, map[], Opening))
  {}

  lemma DriftOpen(root: string, path: string)
    requires Listable(path) && UsesContextLink(path)
    ensures IsStep(PLAIN, DriftState(root, path, map[], Opening), Open(0), DriftState(root, path, map[], Starting))
    ensures IsStep(PLAIN, DriftState(root, path, map[], Starting), Lookup(0),
                   DriftState(root, path, map[], Reading(0, [])))
  {}

  lemma DriftObserve(root: string, path: string)
    requires Listable(path) && UsesContextLink(path)
    ensures IsStep(PLAIN, DriftState(root, path, map[], Reading(0, [])), Observe(0),
                   DriftState(root, path, map[], Reading(0, [map[]])))
  {
    var nothing: seq<Tree> := [];
    assert nothing + [map[]] == [map[]];
  }

  lemma DriftRead(root: string, path: string)
    requires Listable(path) && UsesContextLink(path)
    ensures IsStep(PLAIN, DriftState(root, path, map[], Reading(0, [map[]])), FinishRead(0),
                   DriftState(root, path, map[], Storing(0, [])))
    ensures IsStep(PLAIN, DriftState(root, path, map[], Storing(0, [])), Store(0),
                   DriftState(root, path, map[], Checking([])))
  {}

  lemma DriftEnds(root: string, path: string, context: Tree)
    requires UsesContextLink(path) && ReadDirectory(context, Where(path)) != []
    ensures IsStep(PLAIN, DriftState(root, path, map[], Checking([])), Drift(root, context),
                   DriftState(root, path, context, Checking([])))
    ensures Misleads(DriftState(root, path, context, Checking([])), PLAIN, 0)
  {}

  lemma DriftReads(root: string, path: string, s: State, events: seq<Event>)
    requires Listable(path) && UsesContextLink(path)
    requires Leads(PLAIN, s, events, DriftState(root, path, map[], Reading(0, [])))
    ensures Leads(PLAIN, s, events + [Observe(0)] + [FinishRead(0)] + [Store(0)],
                  DriftState(root, path, map[], Checking([])))
  {
    DriftObserve(root, path);
    OneMore(PLAIN, s, events, DriftState(root, path, map[], Reading(0, [])), Observe(0),
            DriftState(root, path, map[], Reading(0, [map[]])));
    DriftRead(root, path);
    OneMore(PLAIN, s, events + [Observe(0)], DriftState(root, path, map[], Reading(0, [map[]])), FinishRead(0),
            DriftState(root, path, map[], Storing(0, [])));
    OneMore(PLAIN, s, events + [Observe(0)] + [FinishRead(0)], DriftState(root, path, map[], Storing(0, [])), Store(0),
            DriftState(root, path, map[], Checking([])));
  }

  lemma DriftOpens(root: string, path: string, s: State)
    requires Listable(path) && UsesContextLink(path)
    requires s == State(map[], map[], map[], map[], map[root := map[]], map[], map[])
    ensures Leads(PLAIN, s, [Begin(0, root, path)] + [Open(0)] + [Lookup(0)],
                  DriftState(root, path, map[], Reading(0, [])))
  {
    var one := [Begin(0, root, path)];
    NoStep(PLAIN, s);
    DriftBegin(root, path);
    OneMore(PLAIN, s, [], s, Begin(0, root, path), DriftState(root, path, map[], Opening));
    assert [] + one == one;
    DriftOpen(root, path);
    OneMore(PLAIN, s, one, DriftState(root, path, map[], Opening), Open(0), DriftState(root, path, map[], Starting));
    OneMore(PLAIN, s, one + [Open(0)], DriftState(root, path, map[], Starting), Lookup(0),
            DriftState(root, path, map[], Reading(0, [])));
  }

  /** A listing below the context link is about to be reported fresh although what the link leads to has changed. */
  lemma DriftedContextIsStale(root: string, path: string) returns (states: seq<State>)
    requires Listable(path) && UsesContextLink(path)
    ensures IsRun(PLAIN, states, Drifts(root, path))
    ensures var s := states[7]; 0 in s.readers && IsCall(s.readers[0], root, root, path) && Misleads(s, PLAIN, 0)
  {
    var s := State(map[], map[], map[], map[], map[root := map[]], map[], map[]);
    var context := map[Where(path) := [ENTRY]];
    var opens := [Begin(0, root, path)] + [Open(0)] + [Lookup(0)];
    var before := opens + [Observe(0)] + [FinishRead(0)] + [Store(0)];
    DriftOpens(root, path, s);
    DriftReads(root, path, s, opens);
    DriftEnds(root, path, context);
    OneMore(PLAIN, s, before, DriftState(root, path, map[], Checking([])), Drift(root, context),
            DriftState(root, path, context, Checking([])));
    assert before + [Drift(root, context)] == Drifts(root, path);
    states := RunFrom(PLAIN, s, Drifts(root, path), DriftState(root, path, context, Checking([])));
  }

  /**
   Whatever the listing code and the run, no snapshot of this path, resolved to these roots, is wrongly reported fresh.
   */
  ghost predicate NeverMisleads(first: string, root: string, path: string, listed: Paths, announced: Paths) {
    forall lister, states: seq<State>, events: seq<Event>, r ::
      Faithful(lister) && Spoken(lister, states, events, first, path, listed, announced) && Initial(states[0])
      && r in states[|events|].readers && IsCall(states[|events|].readers[r], first, root, path) ==>
        !Misleads(states[|events|], lister, r)
  }

  lemma TellsTruth(lister: Lister, states: seq<State>, events: seq<Event>, root: string, path: string, listed: Paths,
                   announced: Paths, r: nat)
    requires Faithful(lister) && Spoken(lister, states, events, root, path, listed, announced) && Initial(states[0])
    requires Compatible(listed, announced) && listed(path) && !UsesContextLink(path)
    requires r in states[|events|].readers && IsCall(states[|events|].readers[r], root, root, path)
    ensures !Misleads(states[|events|], lister, r)
  {
    var n := |events|;
    forall k | 0 <= k < n ensures Calm(states[k], events[k], r) {
      if r in states[k].readers { CallStays(lister, states, events, r, k, n); }
    }
    if Enabled(states[n], lister, Check(r)) {
      FreshShallowSnapshot(lister, states, events, root, path, listed, announced, r);
    }
  }

  lemma Misled(first: string, root: string, path: string, listed: Paths, announced: Paths, states: seq<State>,
               events: seq<Event>)
    requires IsRun(PLAIN, states, events) && 0 in states[|events|].readers
    requires IsCall(states[|events|].readers[0], first, root, path) && Misleads(states[|events|], PLAIN, 0)
    requires forall k :: 0 <= k < |events| ==> Speaks(events[k], listed, announced) && !events[k].Replace?
    ensures !NeverMisleads(first, root, path, listed, announced)
  {
    PlainIsFaithful();
    forall k | 0 <= k < |events| ensures Spares(states[k], events[k], first, path) {
      assert !events[k].Replace?;
    }
    assert Spoken(PLAIN, states, events, first, path, listed, announced);
  }

  /**
   Snapshots of a path are never wrongly reported fresh, in any run, if and only if the two resolutions of the root
   agree and the path is not below the context link.
   */
  lemma FreshExactly(first: string, root: string, path: string, listed: Paths, announced: Paths)
    requires Compatible(listed, announced) && listed(path) && Listable(path)
    ensures NeverMisleads(first, root, path, listed, announced) <==> first == root && !UsesContextLink(path)
  {
    if first != root {
      var states := FlippedRootIsStale("n", first, root, path);
      Misled(first, root, path, listed, announced, states, Flips("n", first, root, path) + [Store(0)]);
    } else if UsesContextLink(path) {
      var states := DriftedContextIsStale(root, path);
      Misled(root, root, path, listed, announced, states, Drifts(root, path));
    } else {
      forall lister, states: seq<State>, events: seq<Event>, r |
        Faithful(lister) && Spoken(lister, states, events, first, path, listed, announced) && Initial(states[0])
        && r in states[|events|].readers && IsCall(states[|events|].readers[r], first, root, path)
        ensures !Misleads(states[|events|], lister, r)
      {
        TellsTruth(lister, states, events, root, path, listed, announced, r);
      }
    }
  }

  // ---- A directory whose name starts with a blank ----

  /** It is served the listing of its namesake without the blank. */
  lemma BlankNamesCollide(workspaces: map<string, Listings>, root: string, entries: seq<FileEntry>)
    ensures Cached(Stored(workspaces, root, "a", entries), root, " a") == Some(entries)
  {}
}
