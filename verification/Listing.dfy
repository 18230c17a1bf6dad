/**
 Directory trees, file entries and listing code, shared by the recursive
 coordinator and the shallow directory cache.
 */
module Listing {

  datatype Option<+T> = None | Some(value: T)

  datatype FileEntry = FileEntry(path: string, name: string, isDir: bool, isIgnored: bool, size: nat, mode: nat,
                                 modifiedAt: string)

  /** What one workspace root holds, directory by directory. */
  type Tree = map<string, seq<FileEntry>>

  /**
   Listing code reads the tree in many separate file-system and git calls, so it may see a
   different tree each time. `assemble` gives its result from everything it saw, in order, and
   `list` is the listing of one tree that does not move.
   */
  datatype Lister = Lister(list: (Tree, string) -> seq<FileEntry>, assemble: (seq<Tree>, string) -> seq<FileEntry>)

  ghost predicate Steady(seen: seq<Tree>, tree: Tree) {
    forall k :: 0 <= k < |seen| ==> seen[k] == tree
  }

  /** The only thing asked of listing code: on a tree that stays put it lists that tree. */
  ghost predicate Faithful(lister: Lister) {
    forall seen: seq<Tree>, tree, path :: seen != [] && Steady(seen, tree) ==>
                                            lister.assemble(seen, path) == lister.list(tree, path)
  }
}
