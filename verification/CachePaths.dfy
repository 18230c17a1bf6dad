/**
 The two readings of a listing path: the key the cache files it under, and the directory the file system
 resolves it to.
 */
module CachePaths {
  import opened Listing
  import opened Text

  // ---- The cache key ----

  /** unicode.IsSpace. */
  predicate IsSpace(c: char) {
    || c == ' ' || '\t' <= c <= '\r' || c == '\U{85}' || c == '\U{A0}' || c == '\U{1680}'
    || '\U{2000}' <= c <= '\U{200A}' || c == '\U{2028}' || c == '\U{2029}' || c == '\U{202F}' || c == '\U{205F}'
    || c == '\U{3000}'
  }

  /** The same as a table of code points. */
  lemma SpacesListed(c: char)
    ensures IsSpace(c) <==>
            c as int in {9, 10, 11, 12, 13, 32, 133, 160, 5760, 8192, 8193, 8194, 8195, 8196, 8197, 8198, 8199, 8200,
                         8201, 8202, 8232, 8233, 8239, 8287, 12288}
  {}

  predicate IsSlash(c: char) { c == '/' }

  function NormalizeCachePath(path: string): string { Trim(Slashed(Trim(path, IsSpace)), IsSlash) }

  /** Everything before the last slash, or the root. */
  function Parent(path: string): string {
    if path == "" then "" else if path[|path| - 1] == '/' then path[..|path| - 1] else Parent(path[..|path| - 1])
  }

  function ParentCachePath(path: string): string { Parent(NormalizeCachePath(path)) }

  predicate Inside(dir: string, path: string) { path + "/" <= dir }

  // ---- The directory ----

  predicate Proper(segment: string) { segment != "" && segment != "." && segment != ".." }

  /** The name of a directory below the root, with "" for the root itself. */
  predicate IsDirectory(dir: string) {
    dir == "" || forall k :: 0 <= k < |Split(dir, '/')| ==> Proper(Split(dir, '/')[k])
  }

  /** Lexical resolution, as filepath.Join does it; None when the path climbs out of the root. */
  function Walk(segments: seq<string>, at: seq<string>): Option<seq<string>> {
    if segments == [] then Some(at)
    else if segments[0] == "" || segments[0] == "." then Walk(segments[1..], at)
    else if segments[0] != ".." then Walk(segments[1..], at + [segments[0]])
    else if at == [] then None
    else Walk(segments[1..], at[..|at| - 1])
  }

  /** safeJoinOptional: a blank path is the root. */
  function Resolve(path: string): Option<seq<string>> {
    if Trim(path, IsSpace) == "" then Some([]) else Walk(Split(path, '/'), [])
  }

  predicate Resolves(path: string) { Resolve(path).Some? }

  /** The directory a path denotes. */
  function Where(path: string): string { if Resolves(path) then Join(Resolve(path).value, '/') else "" }

  /** A path that both readings leave alone: relative, no "", "." or ".." segment, no outer blank, no backslash. */
  predicate CleanPath(path: string) { IsDirectory(path) && NormalizeCachePath(path) == path }

  // ---- Resolution yields directories ----

  ghost predicate AllProper(segments: seq<string>) {
    forall k :: 0 <= k < |segments| ==> Proper(segments[k]) && '/' !in segments[k]
  }

  lemma {:induction false} SplitParts(s: string, sep: char, k: nat)
    requires k < |Split(s, sep)|
    ensures sep !in Split(s, sep)[k]
    decreases |s|
  {
    if s != "" {
      if s[0] == sep {
        if k > 0 { SplitParts(s[1..], sep, k - 1); }
      } else {
        SplitParts(s[1..], sep, k);
      }
    }
  }

  lemma {:induction false} WalkProper(segments: seq<string>, at: seq<string>)
    requires AllProper(at) && forall k :: 0 <= k < |segments| ==> '/' !in segments[k]
    ensures Walk(segments, at).Some? ==> AllProper(Walk(segments, at).value)
    decreases |segments|
  {
    if segments != [] {
      if segments[0] == "" || segments[0] == "." {
        WalkProper(segments[1..], at);
      } else if segments[0] != ".." {
        WalkProper(segments[1..], at + [segments[0]]);
      } else if at != [] {
        WalkProper(segments[1..], at[..|at| - 1]);
      }
    }
  }

  lemma WhereIsDirectory(path: string)
    ensures IsDirectory(Where(path))
  {
    if Resolves(path) {
      forall k | 0 <= k < |Split(path, '/')| ensures '/' !in Split(path, '/')[k] { SplitParts(path, '/', k); }
      WalkProper(Split(path, '/'), []);
      var segments := Resolve(path).value;
      if segments != [] { SplitJoin(segments, '/'); }
    }
  }

  // ---- Clean paths denote themselves ----

  lemma {:induction false} WalkStraight(segments: seq<string>, at: seq<string>)
    requires forall k :: 0 <= k < |segments| ==> Proper(segments[k])
    ensures Walk(segments, at) == Some(at + segments)
    decreases |segments|
  {
    if segments != [] {
      WalkStraight(segments[1..], at + [segments[0]]);
      assert at + [segments[0]] + segments[1..] == at + segments;
    } else {
      assert at + segments == at;
    }
  }

  lemma CleanDenotesItself(path: string)
    requires CleanPath(path)
    ensures Resolves(path) && Where(path) == path
  {
    if path != "" {
      TidyIff(path);
      assert Trim(path, IsSpace) == path;
      WalkStraight(Split(path, '/'), []);
      assert [] + Split(path, '/') == Split(path, '/');
      JoinSplit(path, '/');
    }
  }

  // ---- What normalization leaves alone ----

  predicate Tidy(path: string) { Bare(path, IsSpace) && Bare(path, IsSlash) && '\\' !in path }

  lemma TidyIff(path: string)
    ensures NormalizeCachePath(path) == path <==> Tidy(path)
  {
    TrimLength(path, IsSpace);
    var trimmed := Trim(path, IsSpace);
    TrimLength(Slashed(trimmed), IsSlash);
    assert '\\' !in path ==> Slashed(path) == path;
    if NormalizeCachePath(path) == path {
      assert trimmed == path && Slashed(path) == path;
      forall k | 0 <= k < |path| ensures path[k] != '\\' { assert Slashed(path)[k] == path[k]; }
    }
  }

  // ---- Children ----

  function Child(dir: string, name: string): string { if dir == "" then name else dir + "/" + name }

  lemma {:induction false} ParentOfChild(dir: string, name: string)
    requires '/' !in name
    ensures Parent(Child(dir, name)) == dir
    decreases |name|
  {
    if name == "" {
      assert dir != "" ==> (dir + "/" + name)[..|dir|] == dir;
    } else {
      var shorter := name[..|name| - 1];
      ParentOfChild(dir, shorter);
      assert Child(dir, name)[..|Child(dir, name)| - 1] == Child(dir, shorter);
      assert Child(dir, name)[|Child(dir, name)| - 1] == name[|name| - 1];
    }
  }

  /** Below a clean directory there are clean names of any length. */
  lemma CleanChild(dir: string, name: string)
    requires CleanPath(dir) && name != "" && forall k :: 0 <= k < |name| ==> name[k] == 'x'
    ensures CleanPath(Child(dir, name)) && Parent(Child(dir, name)) == dir
  {
    ParentOfChild(dir, name);
    ChildTidy(dir, name);
    ChildIsDirectory(dir, name);
  }

  lemma ChildTidy(dir: string, name: string)
    requires NormalizeCachePath(dir) == dir && name != "" && forall k :: 0 <= k < |name| ==> name[k] == 'x'
    ensures NormalizeCachePath(Child(dir, name)) == Child(dir, name)
  {
    var child := Child(dir, name);
    TidyIff(dir);
    TidyIff(child);
    assert child[|child| - 1] == 'x';
    assert dir != "" ==> child[0] == dir[0];
  }

  lemma ChildIsDirectory(dir: string, name: string)
    requires IsDirectory(dir) && name != "" && forall k :: 0 <= k < |name| ==> name[k] == 'x'
    ensures IsDirectory(Child(dir, name))
  {
    SplitWhole(name, '/');
    assert Proper(name);
    if dir != "" {
      var tail := "/" + name;
      assert tail[1..] == name && Child(dir, name) == dir + tail;
      SplitSnoc(dir, tail, '/');
    }
  }

  // ---- Names and segments ----

  /** The segments of a directory's name; the root has none. */
  function SegmentsOf(dir: string): seq<string> { if dir == "" then [] else Split(dir, '/') }

  lemma SegmentsDiffer(a: string, b: string)
    requires SegmentsOf(a) == SegmentsOf(b)
    ensures a == b
  {
    JoinSplit(a, '/');
    JoinSplit(b, '/');
  }

  /** One directory is inside another exactly when its segments go on from the other's. */
  lemma InsideMeans(dir: string, path: string)
    requires path != ""
    ensures Inside(dir, path) <==> SegmentsOf(path) < SegmentsOf(dir)
  {
    if Inside(dir, path) {
      var rest := dir[|path| + 1..];
      assert dir == path + ['/'] + rest;
      SplitAt(path, rest, '/');
    }
    if SegmentsOf(path) < SegmentsOf(dir) {
      var a, b := Split(path, '/'), Split(dir, '/')[|Split(path, '/')|..];
      assert Split(dir, '/') == a + b;
      JoinAt(a, b, '/');
      JoinSplit(path, '/');
      JoinSplit(dir, '/');
      assert dir == path + "/" + Join(b, '/');
    }
  }

  /** The parent has all segments but the last. */
  lemma ParentMeans(dir: string)
    requires IsDirectory(dir) && dir != ""
    ensures SegmentsOf(Parent(dir)) == SegmentsOf(dir)[..|SegmentsOf(dir)| - 1]
  {
    var segments := Split(dir, '/');
    var n := |segments| - 1;
    var up, name := segments[..n], segments[n];
    JoinSplit(dir, '/');
    SplitParts(dir, '/', n);
    assert segments == up + [name];
    if n == 0 {
      ParentOfChild("", name);
    } else {
      JoinAt(up, [name], '/');
      forall k | 0 <= k < n ensures '/' !in up[k] { SplitParts(dir, '/', k); }
      SplitJoin(up, '/');
      var above := Join(up, '/');
      assert Proper(segments[0]);
      assert dir == Child(above, name);
      ParentOfChild(above, name);
    }
  }

  /** Going down and up again leads back. */
  lemma UpUndoesDown(name: string, rest: seq<string>, at: seq<string>)
    requires Proper(name)
    ensures Walk([name, ".."] + rest, at) == Walk(rest, at)
    ensures Walk([".."] + rest, []) == None
    ensures Walk(["", "."] + rest, at) == Walk(rest, at)
  {
    var down, up, still := [name, ".."] + rest, [".."] + rest, ["", "."] + rest;
    assert down[1..] == up && up[1..] == rest && still[1..] == ["."] + rest && (["."] + rest)[1..] == rest;
    assert (at + [name])[..|at|] == at;
  }
}
