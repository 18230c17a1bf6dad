/**
 Shallow listings through the cache, interleaved with changes: lookup, reads and store are separate
 steps of a reader; a change and its InvalidateWorkspacePaths call are one step. Readers and changes
 name directories by any text that resolves below the root.
 */
module CachedListing {
  import opened Listing
  import opened CachePaths
  import opened DirectoryCache

  const CONTEXT_LINK_NAME := ".my-context"

  const GIT_DIRECTORY := ".git"

  predicate BelowContextLink(path: string) {
    Resolves(path) && Resolve(path).value != [] && Resolve(path).value[0] == CONTEXT_LINK_NAME
  }

  /** usesContextLinkPath: the first part of the cleaned path; an absolute path starts with an empty part. */
  predicate UsesContextLink(path: string) { !("/" <= path) && BelowContextLink(path) }

  /** What safeJoin admits: no git metadata, and nothing outside the root except by the context link's own name. */
  predicate Listable(path: string) {
    && Resolves(path) && GIT_DIRECTORY !in Resolve(path).value
    && (BelowContextLink(path) ==> UsesContextLink(path))
  }

  /** Paths that are looked up and stored; the context link is not. */
  predicate Cacheable(path: string) { Listable(path) && !UsesContextLink(path) }

  datatype Pc =
    | Opening
    | Starting
    | Reading(generation: nat, seen: seq<Tree>)
    | Storing(generation: nat, entries: seq<FileEntry>)
    | Checking(entries: seq<FileEntry>)
    | Returned(entries: seq<FileEntry>, isFresh: bool)
    | Raised

  /**
   A call for `path` under the root called `name`. The snapshot code resolves `name` to `first` and reads its identity
   and generation; the listing code resolves it again, to `root`.
   */
  datatype Reader = Reader(
    name: string, path: string, first: string, firstIdentity: nat, since: nat, root: string, identity: nat, pc: Pc)

  /** What the context link of a root leads to is kept apart in `contexts`. */
  datatype State = State(
    readers: map<nat, Reader>, workspaces: map<string, Listings>, gens: map<string, nat>,
    trees: map<string, Tree>, contexts: map<string, Tree>, ids: map<string, nat>, links: map<string, string>)

  function Gen(s: State, root: string): nat { if root in s.gens then s.gens[root] else 0 }

  function TreeIn(trees: map<string, Tree>, root: string): Tree { if root in trees then trees[root] else map[] }

  function Identity(s: State, root: string): nat { if root in s.ids then s.ids[root] else 0 }

  function Canonical(s: State, name: string): string { if name in s.links then s.links[name] else name }

  /** The tree that a listing of this path reads. */
  function Sight(s: State, root: string, path: string): Tree {
    if UsesContextLink(path) then TreeIn(s.contexts, root) else TreeIn(s.trees, root)
  }

  /**
   `Drift` changes what the context link leads to, `Replace` puts another directory in the root's place and `Relink`
   points a name elsewhere; nothing announces any of them.
   */
  datatype Event =
    | Begin(r: nat, name: string, path: string)
    | Open(r: nat)
    | Lookup(r: nat)
    | Observe(r: nat)
    | FinishRead(r: nat)
    | Fail(r: nat)
    | Store(r: nat)
    | Check(r: nat)
    | Change(root: string, paths: seq<string>, tree: Tree, context: Tree)
    | Drift(root: string, context: Tree)
    | Replace(root: string, tree: Tree)
    | Relink(name: string, target: string)

  /** A change at directory or file `at` can alter the listing of `at`, of what is below it, and of its parent. */
  predicate Alters(at: string, dir: string) { at == "" || dir == at || Inside(dir, at) || dir == Parent(at) }

  predicate AltersAny(paths: seq<string>, dir: string) { exists k :: 0 <= k < |paths| && Alters(Where(paths[k]), dir) }

  /** The change model: the two trees list every other directory alike. */
  ghost predicate Confined(lister: Lister, before: Tree, after: Tree, paths: seq<string>) {
    forall dir :: IsDirectory(dir) && !AltersAny(paths, dir) ==> lister.list(after, dir) == lister.list(before, dir)
  }

  /** The directory a reader lists is still in its place, under the name it was asked for. */
  predicate StillThere(s: State, reader: Reader) {
    Canonical(s, reader.name) == reader.root && Identity(s, reader.root) == reader.identity
  }

  /** The same, for the directory the snapshot code resolved. */
  predicate StillFirst(s: State, reader: Reader) {
    Canonical(s, reader.name) == reader.first && Identity(s, reader.first) == reader.firstIdentity
  }

  predicate AboutReader(e: Event) { !e.Change? && !e.Drift? && !e.Replace? && !e.Relink? }

  ghost predicate Enabled(s: State, lister: Lister, e: Event) {
    match e
    case Begin(r, _, path) => r !in s.readers && Listable(path)
    case Open(r) => r in s.readers && s.readers[r].pc.Opening?
    case Lookup(r) => r in s.readers && s.readers[r].pc.Starting?
    case Observe(r) => r in s.readers && s.readers[r].pc.Reading?
    case FinishRead(r) =>
      r in s.readers && s.readers[r].pc.Reading? && s.readers[r].pc.seen != [] && StillThere(s, s.readers[r])
    case Fail(r) => r in s.readers && !s.readers[r].pc.Returned?
    case Store(r) => r in s.readers && s.readers[r].pc.Storing?
    case Check(r) => r in s.readers && s.readers[r].pc.Checking? && StillFirst(s, s.readers[r])
    case Change(root, paths, tree, _) =>
      (forall k :: 0 <= k < |paths| ==> Resolves(paths[k])) && Confined(lister, TreeIn(s.trees, root), tree, paths)
    case Drift(_, _) => true
    case Replace(_, _) => true
    case Relink(_, _) => true
  }

  /** What a lookup of this path finds. */
  function Hit(s: State, root: string, path: string): Option<seq<FileEntry>> {
    if Cacheable(path) then Cached(s.workspaces, root, path) else None
  }

  function AfterLookup(s: State, reader: Reader): Pc {
    var hit := Hit(s, reader.root, reader.path);
    if UsesContextLink(reader.path) then Reading(0, [])
    else if hit.Some? then Checking(hit.value)
    else Reading(Gen(s, reader.root), [])
  }

  function NewReader(s: State, name: string, path: string): Reader {
    var root := Canonical(s, name);
    Reader(name, path, root, Identity(s, root), Gen(s, root), root, Identity(s, root), Opening)
  }

  function Opened(s: State, reader: Reader): Reader {
    var root := Canonical(s, reader.name);
    reader.(root := root, identity := Identity(s, root), pc := Starting)
  }

  function PcAfter(s: State, lister: Lister, e: Event): Pc
    requires Enabled(s, lister, e) && AboutReader(e) && !e.Begin? && !e.Open?
  {
    var reader := s.readers[e.r];
    match e
    case Lookup(_) => AfterLookup(s, reader)
    case Observe(_) => Reading(reader.pc.generation, reader.pc.seen + [Sight(s, reader.root, reader.path)])
    case FinishRead(_) => Storing(reader.pc.generation, lister.assemble(reader.pc.seen, Where(reader.path)))
    case Store(_) => Checking(reader.pc.entries)
    case Check(_) => Returned(reader.pc.entries, Gen(s, reader.first) == reader.since)
    case Fail(_) => Raised
  }

  function ReaderAfter(s: State, lister: Lister, e: Event): Reader
    requires Enabled(s, lister, e) && AboutReader(e)
  {
    if e.Begin? then NewReader(s, e.name, e.path)
    else if e.Open? then Opened(s, s.readers[e.r])
    else s.readers[e.r].(pc := PcAfter(s, lister, e))
  }

  /** storeCanonicalDirectoryEntries refuses a listing once the generation has moved. */
  predicate Stores(s: State, reader: Reader) {
    reader.pc.Storing? && !UsesContextLink(reader.path) && Gen(s, reader.root) == reader.pc.generation
  }

  function CacheAfter(s: State, e: Event): map<string, Listings> {
    if e.Store? && e.r in s.readers && Stores(s, s.readers[e.r])
    then Stored(s.workspaces, s.readers[e.r].root, s.readers[e.r].path, s.readers[e.r].pc.entries)
    else s.workspaces
  }

  function Apply(s: State, lister: Lister, e: Event): State
    requires Enabled(s, lister, e)
  {
    if e.Change? then
      s.(trees := s.trees[e.root := e.tree], contexts := s.contexts[e.root := e.context],
      gens := s.gens[e.root := Gen(s, e.root) + 1], workspaces := Invalidated(s.workspaces, e.root, e.paths))
    else if e.Drift? then s.(contexts := s.contexts[e.root := e.context])
    else if e.Replace? then s.(trees := s.trees[e.root := e.tree], ids := s.ids[e.root := Identity(s, e.root) + 1])
    else if e.Relink? then s.(links := s.links[e.name := e.target])
    else s.(readers := s.readers[e.r := ReaderAfter(s, lister, e)], workspaces := CacheAfter(s, e))
  }

  ghost predicate IsStep(lister: Lister, s: State, e: Event, t: State) {
    Enabled(s, lister, e) && t == Apply(s, lister, e)
  }

  /** `events` lead from the first to the last of `states`. */
  ghost predicate Steps(lister: Lister, states: seq<State>, events: seq<Event>) {
    |states| == |events| + 1 && forall k :: 0 <= k < |events| ==> IsStep(lister, states[k], events[k], states[k + 1])
  }

  predicate Initial(s: State) { s.readers == map[] && s.workspaces == map[] }

  ghost predicate IsRun(lister: Lister, states: seq<State>, events: seq<Event>) {
    Steps(lister, states, events) && Initial(states[0])
  }

  // ---- Which paths go together ----

  type Paths = string -> bool

  /** Readers use paths of `listed`, changes announce paths of `announced`. */
  predicate Speaks(e: Event, listed: Paths, announced: Paths) {
    && (e.Begin? ==> listed(e.path))
    && (e.Change? ==> forall k :: 0 <= k < |e.paths| ==> announced(e.paths[k]))
  }

  /** Every announcement that alters what a reader's path denotes drops the entry that path is filed under. */
  ghost predicate Reaches(listed: Paths, announced: Paths) {
    forall q, p :: listed(q) && announced(p) && Cacheable(q) && Resolves(p) && Alters(Where(p), Where(q)) ==>
                     Drops(p, NormalizeCachePath(q))
  }

  /** No two directories share an entry. */
  ghost predicate Separates(listed: Paths) {
    forall q, r :: listed(q) && listed(r) && Cacheable(q) && Cacheable(r)
                   && NormalizeCachePath(q) == NormalizeCachePath(r) ==>
                     Where(q) == Where(r)
  }

  ghost predicate Compatible(listed: Paths, announced: Paths) { Reaches(listed, announced) && Separates(listed) }
}
