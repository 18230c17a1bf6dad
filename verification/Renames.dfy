/** Pairing deleted unstaged files with added untracked files as renames. */
module Renames {
  import opened Listing
  import opened Text

  datatype Kind = Added | Deleted | Modified | Renamed | Other(name: string)

  datatype Change = Change(path: string, kind: Kind, additions: int, deletions: int)

  datatype Sections = Sections(unstaged: seq<Change>, staged: seq<Change>, untracked: seq<Change>)

  // ---- Path parts ----

  /** strings.LastIndex; -1 when absent. */
  function LastIndex(s: string, c: char): (r: int)
    ensures -1 <= r < |s|
    ensures r >= 0 ==> s[r] == c
    ensures forall k :: r < k < |s| ==> s[k] != c
  {
    if s == "" then -1 else if s[|s| - 1] == c then |s| - 1 else LastIndex(s[..|s| - 1], c)
  }

  function ParentPath(path: string): string {
    var s := Slashed(path);
    var slash := LastIndex(s, '/');
    if slash <= 0 then "" else s[..slash]
  }

  function Lower(s: string): string {
    seq(|s|, i requires 0 <= i < |s| => if 'A' <= s[i] <= 'Z' then (s[i] as int + 32) as char else s[i])
  }

  /** The file name fileExtension looks at. */
  function NameOf(path: string): string {
    var s := Slashed(path);
    var slash := LastIndex(s, '/');
    if slash >= 0 then s[slash + 1..] else path
  }

  function FileExtension(path: string): string {
    var name := NameOf(path);
    var dot := LastIndex(name, '.');
    if dot <= 0 || dot == |name| - 1 then "" else Lower(name[dot + 1..])
  }

  // ---- Which files may be a pair ----

  predicate SameDirectory(d: Change, a: Change) {
    ParentPath(a.path) == ParentPath(d.path)
    && (FileExtension(d.path) == "" || FileExtension(a.path) == FileExtension(d.path))
  }

  predicate SameExtension(d: Change, a: Change) {
    FileExtension(d.path) != "" && FileExtension(a.path) == FileExtension(d.path)
  }

  // ---- What the path functions mean ----

  /** The segments of a path, whichever way its slashes lean. */
  ghost function Segments(path: string): seq<string> { Split(Slashed(path), '/') }

  /** All segments but the last. */
  ghost function Folder(path: string): seq<string> { Segments(path)[..|Segments(path)| - 1] }

  ghost function FileName(path: string): string { Segments(path)[|Segments(path)| - 1] }

  /** What follows the last dot of the file name, unless nothing comes before or after it. */
  ghost function Suffix(path: string): Option<string> {
    var pieces := Split(FileName(path), '.');
    var last := pieces[|pieces| - 1];
    if Join(pieces[..|pieces| - 1], '.') == "" || last == "" then None else Some(last)
  }

  predicate IsCasePair(upper: char, lower: char) {
    'A' <= upper <= 'Z' && 'a' <= lower <= 'z' && upper as int - 'A' as int == lower as int - 'a' as int
  }

  ghost predicate EqualFold(a: string, b: string) {
    |a| == |b| && forall k :: 0 <= k < |a| ==> a[k] == b[k] || IsCasePair(a[k], b[k]) || IsCasePair(b[k], a[k])
  }

  lemma LowerMeans(a: string, b: string)
    ensures Lower(a) == Lower(b) <==> EqualFold(a, b)
  {
    if Lower(a) == Lower(b) {
      forall k | 0 <= k < |a| ensures a[k] == b[k] || IsCasePair(a[k], b[k]) || IsCasePair(b[k], a[k]) {
        assert Lower(a)[k] == Lower(b)[k];
      }
    }
  }

  /** Splitting at the last separator. */
  lemma LastSplit(s: string, c: char)
    ensures var i, pieces := LastIndex(s, c), Split(s, c);
            && (i < 0 ==> pieces == [s])
            && (i >= 0 ==> pieces == Split(s[..i], c) + [s[i + 1..]] && Join(pieces[..|pieces| - 1], c) == s[..i])
  {
    var i := LastIndex(s, c);
    if i < 0 {
      SplitWhole(s, c);
    } else {
      assert s == s[..i] + [c] + s[i + 1..];
      SplitLast(s[..i], c, s[i + 1..]);
    }
  }

  lemma SplitLast(before: string, c: char, after: string)
    requires c !in after
    ensures var pieces := Split(before + [c] + after, c);
            pieces == Split(before, c) + [after] && Join(pieces[..|pieces| - 1], c) == before
  {
    SplitAt(before, after, c);
    SplitWhole(after, c);
    var front := Split(before, c);
    assert (front + [after])[..|front|] == front;
    JoinSplit(before, c);
  }

  lemma ParentMeans(path: string)
    ensures ParentPath(path) == Join(Folder(path), '/')
  {
    LastSplit(Slashed(path), '/');
  }

  lemma NoSlash(path: string)
    requires LastIndex(Slashed(path), '/') < 0
    ensures Slashed(path) == path
  {
    forall k | 0 <= k < |path| ensures Slashed(path)[k] == path[k] {
      assert Slashed(path)[k] != '/';
    }
  }

  lemma NameMeans(path: string)
    ensures NameOf(path) == FileName(path)
  {
    var s := Slashed(path);
    LastSplit(s, '/');
    if LastIndex(s, '/') < 0 {
      NoSlash(path);
    } else {
      var pieces := Segments(path);
      assert pieces[|pieces| - 1] == s[LastIndex(s, '/') + 1..];
    }
  }

  lemma ExtensionMeans(path: string)
    ensures FileExtension(path) == if Suffix(path).Some? then Lower(Suffix(path).value) else ""
    ensures FileExtension(path) == "" <==> Suffix(path).None?
  {
    NameMeans(path);
    var name := NameOf(path);
    var dot, pieces := LastIndex(name, '.'), Split(name, '.');
    LastSplit(name, '.');
    if dot < 0 {
      assert pieces == [name] && Join(pieces[..0], '.') == "";
    } else {
      assert pieces[|pieces| - 1] == name[dot + 1..] && Join(pieces[..|pieces| - 1], '.') == name[..dot];
      assert |name[..dot]| == dot && |name[dot + 1..]| == |name| - 1 - dot;
    }
  }

  /** Two files count as close, or as alike, exactly when their folders and extensions say so. */
  lemma RelationsMean(d: Change, a: Change)
    ensures SameDirectory(d, a) <==>
            && Join(Folder(d.path), '/') == Join(Folder(a.path), '/')
            && (Suffix(d.path).Some? ==> Suffix(a.path).Some? && EqualFold(Suffix(d.path).value, Suffix(a.path).value))
    ensures SameExtension(d, a) <==>
            Suffix(d.path).Some? && Suffix(a.path).Some? && EqualFold(Suffix(d.path).value, Suffix(a.path).value)
  {
    ParentMeans(d.path);
    ParentMeans(a.path);
    ExtensionMeans(d.path);
    ExtensionMeans(a.path);
    if Suffix(d.path).Some? && Suffix(a.path).Some? { LowerMeans(Suffix(d.path).value, Suffix(a.path).value); }
  }

  type Relation = (Change, Change) -> bool

  predicate Compatible(near: Relation, alike: Relation, d: Change, a: Change) { near(d, a) || alike(d, a) }

  /** The first file that is still free and stands in relation to `d`. */
  method FirstFree(d: Change, added: seq<Change>, consumed: set<string>, related: Relation) returns (r: Option<nat>)
    ensures r.Some? ==> r.value < |added| && IsFirst(d, added, consumed, related, r.value)
    ensures r.None? ==> NoneFree(d, added, |added|, consumed, related)
  {
    for i := 0 to |added|
      invariant NoneFree(d, added, i, consumed, related)
    {
      if added[i].path !in consumed && related(d, added[i]) {
        return Some(i);
      }
    }
    return None;
  }

  ghost predicate NoneFree(d: Change, added: seq<Change>, n: nat, consumed: set<string>, related: Relation)
    requires n <= |added|
  {
    forall k :: 0 <= k < n && added[k].path !in consumed ==> !related(d, added[k])
  }

  ghost predicate IsFirst(d: Change, added: seq<Change>, consumed: set<string>, related: Relation, i: nat)
    requires i < |added|
  {
    added[i].path !in consumed && related(d, added[i]) && NoneFree(d, added, i, consumed, related)
  }

  ghost predicate Chosen(near: Relation, alike: Relation, d: Change, added: seq<Change>, consumed: set<string>, i: nat)
    requires i < |added|
  {
    || IsFirst(d, added, consumed, near, i)
    || (NoneFree(d, added, |added|, consumed, near) && IsFirst(d, added, consumed, alike, i))
  }

  /** The first free file in the same directory, else the first free one of the same extension. */
  method FindCandidate(d: Change, added: seq<Change>, consumed: set<string>, near: Relation,
                       alike: Relation) returns (r: Option<nat>)
    ensures r.Some? ==> r.value < |added| && Chosen(near, alike, d, added, consumed, r.value)
    ensures r.None? ==> NoneFree(d, added, |added|, consumed, near) && NoneFree(d, added, |added|, consumed, alike)
  {
    r := FirstFree(d, added, consumed, near);
    if r.None? {
      r := FirstFree(d, added, consumed, alike);
    }
  }

  // ---- The matching ----

  ghost predicate DistinctPaths(cs: seq<Change>) { forall i, k :: 0 <= i < k < |cs| ==> cs[i].path != cs[k].path }

  function MaxInt(a: int, b: int): int { if a < b then b else a }

  function AsRename(a: Change): Change { Change(a.path, Renamed, MaxInt(0, a.additions), MaxInt(0, a.deletions)) }

  /** The rename keeps the new path and the counts of the added file, which never show below zero. */
  lemma RenameMeans(a: Change)
    ensures var r := AsRename(a);
            && r.path == a.path && r.kind == Renamed
            && (if a.additions < 0 then r.additions == 0 else r.additions == a.additions)
            && (if a.deletions < 0 then r.deletions == 0 else r.deletions == a.deletions)
  {}

  /** Indexes of a deleted and an added file. */
  datatype Pair = Pair(d: nat, a: nat)

  ghost predicate Within(deleted: seq<Change>, added: seq<Change>, pairs: seq<Pair>) {
    forall k :: 0 <= k < |pairs| ==> pairs[k].d < |deleted| && pairs[k].a < |added|
  }

  /** One to one, in the order of the deleted files; no path is the new name of two files. */
  ghost predicate OneToOne(deleted: seq<Change>, added: seq<Change>, pairs: seq<Pair>) {
    && Within(deleted, added, pairs)
    && (forall i, k :: 0 <= i < k < |pairs| ==>
                         pairs[i].d < pairs[k].d && added[pairs[i].a].path != added[pairs[k].a].path)
  }

  /** Each pair is the best one left when its deleted file had its turn. */
  ghost predicate Greedy(near: Relation, alike: Relation, deleted: seq<Change>, added: seq<Change>, pairs: seq<Pair>) {
    && Within(deleted, added, pairs)
    && forall k :: 0 <= k < |pairs| ==>
                     Chosen(near, alike, deleted[pairs[k].d], added, AddedPaths(added, pairs[..k]), pairs[k].a)
  }

  function DeletedPaths(deleted: seq<Change>, pairs: seq<Pair>): set<string>
    requires forall k :: 0 <= k < |pairs| ==> pairs[k].d < |deleted|
  {
    set k | 0 <= k < |pairs| :: deleted[pairs[k].d].path
  }

  function AddedPaths(added: seq<Change>, pairs: seq<Pair>): set<string>
    requires forall k :: 0 <= k < |pairs| ==> pairs[k].a < |added|
  {
    set k | 0 <= k < |pairs| :: added[pairs[k].a].path
  }

  /** No deleted file that stayed unmatched could be paired with a file that stayed free. */
  ghost predicate Maximal(near: Relation, alike: Relation, deleted: seq<Change>, added: seq<Change>, upTo: nat,
                          takenDeleted: set<string>, takenAdded: set<string>)
    requires upTo <= |deleted|
  {
    forall d, a :: 0 <= d < upTo && 0 <= a < |added| && deleted[d].path !in takenDeleted
                   && added[a].path !in takenAdded ==>
                     !Compatible(near, alike, deleted[d], added[a])
  }

  /** `renames` holds one rename per pair. */
  ghost predicate RenamesOf(added: seq<Change>, pairs: seq<Pair>, renames: map<string, Change>)
    requires forall k :: 0 <= k < |pairs| ==> pairs[k].a < |added|
  {
    && renames.Keys == AddedPaths(added, pairs)
    && forall k :: 0 <= k < |pairs| ==> renames[added[pairs[k].a].path] == AsRename(added[pairs[k].a])
  }

  lemma PathsSnoc(deleted: seq<Change>, added: seq<Change>, pairs: seq<Pair>, p: Pair)
    requires Within(deleted, added, pairs) && p.d < |deleted| && p.a < |added|
    ensures DeletedPaths(deleted, pairs + [p]) == DeletedPaths(deleted, pairs) + {deleted[p.d].path}
    ensures AddedPaths(added, pairs + [p]) == AddedPaths(added, pairs) + {added[p.a].path}
  {
    var more := pairs + [p];
    forall x | x in DeletedPaths(deleted, pairs) + {deleted[p.d].path} ensures x in DeletedPaths(deleted, more) {
      if x in DeletedPaths(deleted, pairs) {
        var k :| 0 <= k < |pairs| && deleted[pairs[k].d].path == x;
        assert deleted[more[k].d].path == x;
      } else {
        assert deleted[more[|pairs|].d].path == x;
      }
    }
    forall x | x in AddedPaths(added, pairs) + {added[p.a].path} ensures x in AddedPaths(added, more) {
      if x in AddedPaths(added, pairs) {
        var k :| 0 <= k < |pairs| && added[pairs[k].a].path == x;
        assert added[more[k].a].path == x;
      } else {
        assert added[more[|pairs|].a].path == x;
      }
    }
  }

  lemma OneToOneSnoc(deleted: seq<Change>, added: seq<Change>, pairs: seq<Pair>, p: Pair)
    requires OneToOne(deleted, added, pairs) && p.d < |deleted| && p.a < |added|
    requires (forall k :: 0 <= k < |pairs| ==> pairs[k].d < p.d) && added[p.a].path !in AddedPaths(added, pairs)
    ensures OneToOne(deleted, added, pairs + [p])
  {}

  lemma GreedySnoc(near: Relation, alike: Relation, deleted: seq<Change>, added: seq<Change>, pairs: seq<Pair>, p: Pair)
    requires Greedy(near, alike, deleted, added, pairs) && p.d < |deleted| && p.a < |added|
    requires Chosen(near, alike, deleted[p.d], added, AddedPaths(added, pairs), p.a)
    ensures Greedy(near, alike, deleted, added, pairs + [p])
  {
    var more := pairs + [p];
    forall k | 0 <= k < |more|
      ensures Chosen(near, alike, deleted[more[k].d], added, AddedPaths(added, more[..k]), more[k].a)
    {
      assert more[..k] == if k < |pairs| then pairs[..k] else pairs;
    }
  }

  lemma MaximalTake(near: Relation, alike: Relation, deleted: seq<Change>, added: seq<Change>, i: nat,
                    takenDeleted: set<string>, takenAdded: set<string>, path: string)
    requires i < |deleted| && Maximal(near, alike, deleted, added, i, takenDeleted, takenAdded)
    ensures Maximal(near, alike, deleted, added, i + 1, takenDeleted + {deleted[i].path}, takenAdded + {path})
  {}

  lemma MaximalSkip(near: Relation, alike: Relation, deleted: seq<Change>, added: seq<Change>, i: nat,
                    takenDeleted: set<string>, takenAdded: set<string>)
    requires i < |deleted| && Maximal(near, alike, deleted, added, i, takenDeleted, takenAdded)
    requires NoneFree(deleted[i], added, |added|, takenAdded, near)
    requires NoneFree(deleted[i], added, |added|, takenAdded, alike)
    ensures Maximal(near, alike, deleted, added, i + 1, takenDeleted, takenAdded)
  {}

  lemma RenamesStep(deleted: seq<Change>, added: seq<Change>, pairs: seq<Pair>, renames: map<string, Change>, p: Pair)
    requires Within(deleted, added, pairs) && p.d < |deleted| && p.a < |added| && RenamesOf(added, pairs, renames)
    requires added[p.a].path !in AddedPaths(added, pairs)
    ensures Within(deleted, added, pairs + [p])
    ensures RenamesOf(added, pairs + [p], renames[added[p.a].path := AsRename(added[p.a])])
  {
    PathsSnoc(deleted, added, pairs, p);
    forall k | 0 <= k < |pairs| ensures added[pairs[k].a].path in AddedPaths(added, pairs) {}
  }

  method MatchFiles(deleted: seq<Change>, added: seq<Change>, near: Relation, alike: Relation)
    returns (consumedDeleted: set<string>, consumedAdded: set<string>, renames: map<string, Change>,
             ghost pairs: seq<Pair>)
    ensures OneToOne(deleted, added, pairs) && Greedy(near, alike, deleted, added, pairs)
    ensures consumedDeleted == DeletedPaths(deleted, pairs) && consumedAdded == AddedPaths(added, pairs)
    ensures Maximal(near, alike, deleted, added, |deleted|, consumedDeleted, consumedAdded)
    ensures RenamesOf(added, pairs, renames)
  {
    consumedDeleted, consumedAdded, renames, pairs := {}, {}, map[], [];
    for i := 0 to |deleted|
      invariant OneToOne(deleted, added, pairs) && forall k :: 0 <= k < |pairs| ==> pairs[k].d < i
      invariant Greedy(near, alike, deleted, added, pairs)
      invariant consumedDeleted == DeletedPaths(deleted, pairs) && consumedAdded == AddedPaths(added, pairs)
      invariant Maximal(near, alike, deleted, added, i, consumedDeleted, consumedAdded)
      invariant RenamesOf(added, pairs, renames)
    {
      var candidate := FindCandidate(deleted[i], added, consumedAdded, near, alike);
      if candidate.None? {
        MaximalSkip(near, alike, deleted, added, i, consumedDeleted, consumedAdded);
      } else {
        var a := candidate.value;
        var newPath := added[a].path;
        MaximalTake(near, alike, deleted, added, i, consumedDeleted, consumedAdded, newPath);
        RenamesStep(deleted, added, pairs, renames, Pair(i, a));
        PathsSnoc(deleted, added, pairs, Pair(i, a));
        OneToOneSnoc(deleted, added, pairs, Pair(i, a));
        GreedySnoc(near, alike, deleted, added, pairs, Pair(i, a));
        pairs := pairs + [Pair(i, a)];
        // The source's branch for an existing rename of the same new path is never taken.
        assert newPath !in renames;
        consumedDeleted := consumedDeleted + {deleted[i].path};
        consumedAdded := consumedAdded + {newPath};
        renames := renames[newPath := AsRename(added[a])];
      }
    }
  }

  // ---- Sections ----

  function OfKind(cs: seq<Change>, kind: Kind): (r: seq<Change>)
    ensures forall c :: c in r <==> c in cs && c.kind == kind
  {
    if cs == [] then []
    else
      var rest := OfKind(cs[..|cs| - 1], kind);
      assert cs == cs[..|cs| - 1] + [cs[|cs| - 1]];
      if cs[|cs| - 1].kind == kind then rest + [cs[|cs| - 1]] else rest
  }

  /** The changes that stay, in their order. */
  function Without(cs: seq<Change>, paths: set<string>): seq<Change> {
    if cs == [] then []
    else
      var rest := Without(cs[..|cs| - 1], paths);
      if cs[|cs| - 1].path in paths then rest else rest + [cs[|cs| - 1]]
  }

  lemma OneChange(c: Change, kind: Kind, paths: set<string>)
    ensures OfKind([c], kind) == if c.kind == kind then [c] else []
    ensures Without([c], paths) == if c.path in paths then [] else [c]
  {
    assert [c][..0] == [];
  }

  lemma {:induction false} OfKindJoins(cs: seq<Change>, ds: seq<Change>, kind: Kind)
    ensures OfKind(cs + ds, kind) == OfKind(cs, kind) + OfKind(ds, kind)
    decreases |ds|
  {
    if ds == [] {
      assert cs + ds == cs;
    } else {
      OfKindJoins(cs, ds[..|ds| - 1], kind);
      assert (cs + ds)[..|cs + ds| - 1] == cs + ds[..|ds| - 1];
    }
  }

  lemma {:induction false} WithoutJoins(cs: seq<Change>, ds: seq<Change>, paths: set<string>)
    ensures Without(cs + ds, paths) == Without(cs, paths) + Without(ds, paths)
    decreases |ds|
  {
    if ds == [] {
      assert cs + ds == cs;
    } else {
      WithoutJoins(cs, ds[..|ds| - 1], paths);
      assert (cs + ds)[..|cs + ds| - 1] == cs + ds[..|ds| - 1];
    }
  }

  /** Both filters look at one change after the other and keep the order. */
  lemma FiltersKeepOrder(cs: seq<Change>, c: Change, ds: seq<Change>, kind: Kind, paths: set<string>)
    ensures OfKind(cs + [c] + ds, kind) == OfKind(cs, kind) + (if c.kind == kind then [c] else []) + OfKind(ds, kind)
    ensures Without(cs + [c] + ds, paths) ==
            Without(cs, paths) + (if c.path in paths then [] else [c]) + Without(ds, paths)
  {
    OneChange(c, kind, paths);
    OfKindJoins(cs, [c], kind);
    OfKindJoins(cs + [c], ds, kind);
    WithoutJoins(cs, [c], paths);
    WithoutJoins(cs + [c], ds, paths);
  }

  method Filter(cs: seq<Change>, kind: Kind) returns (r: seq<Change>)
    ensures r == OfKind(cs, kind)
  {
    r := [];
    for i := 0 to |cs|
      invariant r == OfKind(cs[..i], kind)
    {
      assert cs[..i + 1][..i] == cs[..i];
      if cs[i].kind == kind {
        r := r + [cs[i]];
      }
    }
    assert cs[..|cs|] == cs;
  }

  method DropConsumed(cs: seq<Change>, paths: set<string>) returns (r: seq<Change>)
    ensures r == Without(cs, paths)
  {
    r := [];
    for i := 0 to |cs|
      invariant r == Without(cs[..i], paths)
    {
      assert cs[..i + 1][..i] == cs[..i];
      if cs[i].path !in paths {
        r := r + [cs[i]];
      }
    }
    assert cs[..|cs|] == cs;
  }

  /** Ranging over a Go map gives each rename once, in no particular order. */
  method RangeRenames(renames: map<string, Change>) returns (r: seq<Change>, ghost order: seq<string>)
    ensures |r| == |order| == |renames| && (forall k :: k in order <==> k in renames)
    ensures forall i :: 0 <= i < |r| ==> order[i] in renames && r[i] == renames[order[i]]
  {
    r, order := [], [];
    var rest := renames.Keys;
    while rest != {}
      invariant rest <= renames.Keys && |r| == |order| == |renames| - |rest|
      invariant forall k :: k in order <==> k in renames && k !in rest
      invariant forall i :: 0 <= i < |r| ==> order[i] in renames && r[i] == renames[order[i]]
      decreases |rest|
    {
      var k :| k in rest;
      rest := rest - {k};
      r := r + [renames[k]];
      order := order + [k];
    }
  }

  // ---- Counting ----

  function PathSet(cs: seq<Change>): set<string> {
    if cs == [] then {} else PathSet(cs[..|cs| - 1]) + {cs[|cs| - 1].path}
  }

  lemma {:induction false} PathSetMember(cs: seq<Change>, x: string)
    ensures x in PathSet(cs) <==> exists k :: 0 <= k < |cs| && cs[k].path == x
    decreases |cs|
  {
    if cs != [] {
      var init := cs[..|cs| - 1];
      PathSetMember(init, x);
      assert forall k :: 0 <= k < |init| ==> init[k] == cs[k];
    }
  }

  lemma {:induction false} WithoutLength(cs: seq<Change>, paths: set<string>)
    requires DistinctPaths(cs)
    ensures |Without(cs, paths)| == |cs| - |paths * PathSet(cs)|
    decreases |cs|
  {
    if cs == [] {
      assert paths * PathSet(cs) == {};
    } else {
      var init, last := cs[..|cs| - 1], cs[|cs| - 1].path;
      WithoutLength(init, paths);
      PathSetMember(init, last);
      assert paths * PathSet(cs) == if last in paths then paths * PathSet(init) + {last} else paths * PathSet(init);
    }
  }

  lemma NewPaths(deleted: seq<Change>, added: seq<Change>, init: seq<Pair>, p: Pair)
    requires OneToOne(deleted, added, init + [p])
    ensures OneToOne(deleted, added, init) && p.d < |deleted| && p.a < |added|
    ensures added[p.a].path !in AddedPaths(added, init)
    ensures DistinctPaths(deleted) ==> deleted[p.d].path !in DeletedPaths(deleted, init)
  {
    var pairs := init + [p];
    assert pairs[|init|] == p;
    forall k | 0 <= k < |init|
      ensures init[k] == pairs[k] && init[k].d < p.d && added[init[k].a].path != added[p.a].path
    {}
  }

  lemma {:induction false} PairsCounted(deleted: seq<Change>, added: seq<Change>, pairs: seq<Pair>)
    requires OneToOne(deleted, added, pairs)
    ensures |AddedPaths(added, pairs)| == |pairs|
    ensures DistinctPaths(deleted) ==> |DeletedPaths(deleted, pairs)| == |pairs|
    decreases |pairs|
  {
    if pairs != [] {
      var init, p := pairs[..|pairs| - 1], pairs[|pairs| - 1];
      assert init + [p] == pairs;
      NewPaths(deleted, added, init, p);
      PairsCounted(deleted, added, init);
      PathsSnoc(deleted, added, init, p);
    }
  }

  lemma {:induction false} KindDistinct(cs: seq<Change>, kind: Kind)
    requires DistinctPaths(cs)
    ensures DistinctPaths(OfKind(cs, kind))
    decreases |cs|
  {
    if cs != [] {
      var init, last := cs[..|cs| - 1], cs[|cs| - 1];
      KindDistinct(init, kind);
      forall c | c in OfKind(init, kind) ensures c.path != last.path {
        assert c in init;
      }
    }
  }

  /** What one to one pairing leaves of the two sections. */
  ghost predicate Reconciled(input: Sections, out: Sections, pairs: seq<Pair>, renamed: seq<Change>) {
    var deleted, added := OfKind(input.unstaged, Deleted), OfKind(input.untracked, Added);
    && OneToOne(deleted, added, pairs) && Greedy(SameDirectory, SameExtension, deleted, added, pairs)
    && Maximal(SameDirectory, SameExtension, deleted, added, |deleted|, DeletedPaths(deleted, pairs),
               AddedPaths(added, pairs))
    && out.staged == input.staged
    && out.unstaged == Without(input.unstaged, DeletedPaths(deleted, pairs)) + renamed
    && out.untracked == Without(input.untracked, AddedPaths(added, pairs))
    && |renamed| == |pairs|
    && (forall k :: 0 <= k < |pairs| ==> AsRename(added[pairs[k].a]) in renamed)
  }

  lemma {:induction false} WithoutNothing(cs: seq<Change>)
    ensures Without(cs, {}) == cs
    decreases |cs|
  {
    if cs != [] { WithoutNothing(cs[..|cs| - 1]); }
  }

  /** With no pair the sections stay as they are. */
  lemma NothingPaired(input: Sections)
    requires var deleted, added := OfKind(input.unstaged, Deleted), OfKind(input.untracked, Added);
             Maximal(SameDirectory, SameExtension, deleted, added, |deleted|, {}, {})
    ensures Reconciled(input, input, [], [])
  {
    var deleted, added := OfKind(input.unstaged, Deleted), OfKind(input.untracked, Added);
    assert DeletedPaths(deleted, []) == {} && AddedPaths(added, []) == {};
    WithoutNothing(input.unstaged);
    WithoutNothing(input.untracked);
  }

  /** Whatever the map's order, the renames it yields are those of the pairs. */
  lemma RenamesListed(added: seq<Change>, pairs: seq<Pair>, renames: map<string, Change>, renamed: seq<Change>,
                      order: seq<string>)
    requires (forall k :: 0 <= k < |pairs| ==> pairs[k].a < |added|) && RenamesOf(added, pairs, renames)
    requires |renamed| == |order| && forall x :: x in order <==> x in renames
    requires forall i :: 0 <= i < |renamed| ==> order[i] in renames && renamed[i] == renames[order[i]]
    ensures forall k :: 0 <= k < |pairs| ==> AsRename(added[pairs[k].a]) in renamed
  {
    forall k | 0 <= k < |pairs| ensures AsRename(added[pairs[k].a]) in renamed {
      var path := added[pairs[k].a].path;
      assert path in AddedPaths(added, pairs) && path in order;
      var i :| 0 <= i < |order| && order[i] == path;
      assert renamed[i] == AsRename(added[pairs[k].a]);
    }
  }

  method Reconcile(input: Sections) returns (out: Sections)
    ensures exists pairs, renamed :: Reconciled(input, out, pairs, renamed)
  {
    var deletedUnstaged := Filter(input.unstaged, Deleted);
    var addedUntracked := Filter(input.untracked, Added);
    if |deletedUnstaged| == 0 || |addedUntracked| == 0 {
      NothingPaired(input);
      return input;
    }
    var consumedDeleted, consumedAdded, renames;
    ghost var pairs;
    consumedDeleted, consumedAdded, renames, pairs :=
      MatchFiles(deletedUnstaged, addedUntracked, SameDirectory, SameExtension);
    PairsCounted(deletedUnstaged, addedUntracked, pairs);
    assert |renames.Keys| == |pairs|;
    if |renames| == 0 {
      assert pairs == [] && consumedDeleted == {} && consumedAdded == {};
      NothingPaired(input);
      return input;
    }
    var nextUnstaged := DropConsumed(input.unstaged, consumedDeleted);
    var renamed;
    ghost var order;
    renamed, order := RangeRenames(renames);
    var nextUntracked := DropConsumed(input.untracked, consumedAdded);
    RenamesListed(addedUntracked, pairs, renames, renamed, order);
    out := Sections(nextUnstaged + renamed, input.staged, nextUntracked);
    assert Reconciled(input, out, pairs, renamed);
  }

  /** Counts: as many unstaged changes as before, and one untracked file fewer for each pair. */
  lemma CountsBalance(input: Sections, out: Sections, pairs: seq<Pair>, renamed: seq<Change>)
    requires DistinctPaths(input.unstaged) && DistinctPaths(input.untracked) && Reconciled(input, out, pairs, renamed)
    ensures |out.unstaged| == |input.unstaged| && |out.untracked| == |input.untracked| - |pairs|
  {
    var deleted, added := OfKind(input.unstaged, Deleted), OfKind(input.untracked, Added);
    KindDistinct(input.unstaged, Deleted);
    KindDistinct(input.untracked, Added);
    PairsCounted(deleted, added, pairs);
    var fromDeleted, fromAdded := DeletedPaths(deleted, pairs), AddedPaths(added, pairs);
    forall x | x in fromDeleted ensures exists c :: c in deleted && c.path == x {
      var k :| 0 <= k < |pairs| && deleted[pairs[k].d].path == x;
      assert deleted[pairs[k].d] in deleted;
    }
    forall x | x in fromAdded ensures exists c :: c in added && c.path == x {
      var k :| 0 <= k < |pairs| && added[pairs[k].a].path == x;
      assert added[pairs[k].a] in added;
    }
    DropLength(input.unstaged, Deleted, fromDeleted);
    DropLength(input.untracked, Added, fromAdded);
  }

  /** Dropping paths of one kind shortens a section by their number. */
  lemma DropLength(cs: seq<Change>, kind: Kind, paths: set<string>)
    requires DistinctPaths(cs) && forall x :: x in paths ==> exists c :: c in OfKind(cs, kind) && c.path == x
    ensures |Without(cs, paths)| == |cs| - |paths|
  {
    forall x | x in paths ensures x in PathSet(cs) {
      var c :| c in OfKind(cs, kind) && c.path == x;
      OfKindPaths(cs, kind, c);
    }
    WithoutLength(cs, paths);
    assert paths * PathSet(cs) == paths;
  }

  lemma OfKindPaths(cs: seq<Change>, kind: Kind, c: Change)
    requires c in OfKind(cs, kind)
    ensures c.path in PathSet(cs)
  {}
}
