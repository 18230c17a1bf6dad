/** The store of the shallow directory cache. */
module DirectoryCache {
  import opened Listing
  import opened CachePaths

  // ---- Which entries a path drops ----

  /** The directories whose cached listing invalidatePaths drops for one path. */
  predicate Drops(path: string, dir: string) {
    var p := NormalizeCachePath(path);
    p == "" || dir == p || Inside(dir, p) || dir == ParentCachePath(p)
  }

  predicate DropsAny(paths: seq<string>, dir: string) { exists k :: 0 <= k < |paths| && Drops(paths[k], dir) }

  // ---- The store ----

  type Listings = map<string, seq<FileEntry>>

  function Cached(workspaces: map<string, Listings>, root: string, path: string): Option<seq<FileEntry>> {
    if root in workspaces && NormalizeCachePath(path) in workspaces[root]
    then Some(workspaces[root][NormalizeCachePath(path)]) else None
  }

  function Stored(workspaces: map<string, Listings>, root: string, path: string,
                  entries: seq<FileEntry>): map<string, Listings> {
    workspaces[root := (if root in workspaces then workspaces[root] else map[])[NormalizeCachePath(path) := entries]]
  }

  function Kept(dirs: Listings, paths: seq<string>): Listings { map d | d in dirs && !DropsAny(paths, d) :: dirs[d] }

  function Invalidated(workspaces: map<string, Listings>, root: string, paths: seq<string>): map<string, Listings> {
    if root !in workspaces then workspaces
    else
      var kept := Kept(workspaces[root], paths);
      if kept == map[] then workspaces - {root} else workspaces[root := kept]
  }

  class FileCacheStore {
    var workspaces: map<string, Listings>

    constructor ()
      ensures workspaces == map[]
    {
      workspaces := map[];
    }

    method GetDirectory(root: string, path: string) returns (entries: seq<FileEntry>, isCached: bool)
      ensures isCached == Cached(workspaces, root, path).Some?
      ensures isCached ==> entries == Cached(workspaces, root, path).value
    {
      if root !in workspaces {
        return [], false;
      }
      var key := NormalizeCachePath(path);
      if key !in workspaces[root] {
        return [], false;
      }
      return workspaces[root][key], true;
    }

    method StoreDirectory(root: string, path: string, entries: seq<FileEntry>)
      modifies this
      ensures workspaces == old(Stored(workspaces, root, path, entries))
    {
      var directories := if root in workspaces then workspaces[root] else map[];
      directories := directories[NormalizeCachePath(path) := entries];
      workspaces := workspaces[root := directories];
    }

    method InvalidatePaths(root: string, paths: seq<string>)
      modifies this
      ensures workspaces == old(Invalidated(workspaces, root, paths))
    {
      if root !in workspaces {
        return;
      }
      var directories := workspaces[root];
      for i := 0 to |paths|
        invariant workspaces == old(workspaces)
        invariant directories == Kept(old(workspaces)[root], paths[..i])
      {
        var normalizedPath := NormalizeCachePath(paths[i]);
        if normalizedPath == "" {
          DropsEverything(old(workspaces)[root], paths, i);
          workspaces := workspaces - {root};
          return;
        }
        var remaining := DropSubtree(directories, normalizedPath);
        KeptStep(old(workspaces)[root], paths, i);
        directories := remaining - {ParentCachePath(normalizedPath)};
      }
      assert paths[..|paths|] == paths;
      if |directories| == 0 {
        workspaces := workspaces - {root};
        return;
      }
      workspaces := workspaces[root := directories];
    }
  }

  /** The inner loop of invalidatePaths, over the cached directories in any order. */
  method DropSubtree(directories: Listings, path: string) returns (out: Listings)
    ensures out == map d | d in directories && d != path && !Inside(d, path) :: directories[d]
  {
    out := directories;
    var rest := directories.Keys;
    while rest != {}
      invariant rest <= directories.Keys
      invariant out == map d | d in directories && (d in rest || (d != path && !Inside(d, path))) :: directories[d]
      decreases |rest|
    {
      var cachedPath :| cachedPath in rest;
      rest := rest - {cachedPath};
      if cachedPath == path || Inside(cachedPath, path) {
        out := out - {cachedPath};
      }
    }
  }

  lemma DropsEverything(dirs: Listings, paths: seq<string>, i: nat)
    requires i < |paths| && NormalizeCachePath(paths[i]) == ""
    ensures Kept(dirs, paths) == map[]
  {}

  lemma DropsAnyStep(paths: seq<string>, i: nat, d: string)
    requires i < |paths|
    ensures DropsAny(paths[..i + 1], d) <==> DropsAny(paths[..i], d) || Drops(paths[i], d)
  {
    var before, after := paths[..i], paths[..i + 1];
    assert after == before + [paths[i]];
    if DropsAny(before, d) {
      var k :| 0 <= k < |before| && Drops(before[k], d);
      assert after[k] == before[k];
    }
    if Drops(paths[i], d) {
      assert after[i] == paths[i];
    }
    if DropsAny(after, d) {
      var k :| 0 <= k < |after| && Drops(after[k], d);
      assert k < i ==> before[k] == after[k];
    }
  }

  lemma DropsMeans(path: string, d: string)
    requires NormalizeCachePath(path) != ""
    ensures var p := NormalizeCachePath(path); Drops(path, d) <==> d == p || Inside(d, p) || d == ParentCachePath(p)
  {}

  lemma KeptAt(dirs: Listings, paths: seq<string>, i: nat, d: string)
    requires i < |paths| && NormalizeCachePath(paths[i]) != ""
    ensures var p := NormalizeCachePath(paths[i]);
            d in Kept(dirs, paths[..i + 1]) <==>
                 d in Kept(dirs, paths[..i]) && d != p && !Inside(d, p) && d != ParentCachePath(p)
  {
    DropsAnyStep(paths, i, d);
    DropsMeans(paths[i], d);
  }

  predicate IsPart(part: Listings, dirs: Listings) { forall d :: d in part ==> d in dirs && part[d] == dirs[d] }

  /** Two parts of one map are told apart by their keys. */
  lemma PartStep(dirs: Listings, before: Listings, after: Listings, p: string, up: string)
    requires IsPart(before, dirs) && IsPart(after, dirs)
    requires forall d :: d in after <==> d in before && d != p && !Inside(d, p) && d != up
    ensures after == (map d | d in before && d != p && !Inside(d, p) :: before[d]) - {up}
  {}

  lemma KeptStep(dirs: Listings, paths: seq<string>, i: nat)
    requires i < |paths| && NormalizeCachePath(paths[i]) != ""
    ensures var p := NormalizeCachePath(paths[i]);
            var dropped := map d | d in Kept(dirs, paths[..i]) && d != p && !Inside(d, p) :: Kept(dirs, paths[..i])[d];
            Kept(dirs, paths[..i + 1]) == dropped - {ParentCachePath(p)}
  {
    var p := NormalizeCachePath(paths[i]);
    var before, after := Kept(dirs, paths[..i]), Kept(dirs, paths[..i + 1]);
    forall d ensures d in after <==> d in before && d != p && !Inside(d, p) && d != ParentCachePath(p) {
      KeptAt(dirs, paths, i, d);
    }
    PartStep(dirs, before, after, p, ParentCachePath(p));
  }

  /** No workspace is kept without a listing, whatever is stored and invalidated. */
  lemma WorkspacesHoldListings(workspaces: map<string, Listings>, root: string, path: string, entries: seq<FileEntry>,
                               paths: seq<string>)
    requires forall r :: r in workspaces ==> workspaces[r] != map[]
    ensures forall r :: r in Stored(workspaces, root, path, entries) ==>
                          Stored(workspaces, root, path, entries)[r] != map[]
    ensures forall r :: r in Invalidated(workspaces, root, paths) ==> Invalidated(workspaces, root, paths)[r] != map[]
  {
    assert NormalizeCachePath(path) in Stored(workspaces, root, path, entries)[root];
  }
}
