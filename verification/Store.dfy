/** The file store: one directory per library ID under a base path. */
module Store {
  import opened Options
  import opened Records

  type Content = seq<nat>

  /** What a path under the base holds; an empty content is an empty directory. */
  datatype Node = Directory(content: Content) | RegularFile

  datatype Lookup = Found | Missing | Error

  /** Only non-empty directories count as stored. */
  function Stored(tree: map<LibraryId, Node>): map<LibraryId, Content> {
    map l | l in tree && tree[l].Directory? && tree[l].content != [] :: tree[l].content
  }

  /** Nothing but directories under non-blank IDs. */
  ghost predicate Sound(tree: map<LibraryId, Node>) {
    forall l | l in tree :: l != "" && tree[l].Directory?
  }

  class Store {
    var tree: map<LibraryId, Node>

    constructor (tree: map<LibraryId, Node>)
      ensures this.tree == tree
    {
      this.tree := tree;
    }

    method Get(id: LibraryId) returns (r: Lookup)
      ensures r.Error? <==> id == "" || (id in tree && tree[id].RegularFile?)
      ensures r.Found? <==> id != "" && id in Stored(tree)
    {
      if id == "" {
        return Error;
      }
      if id !in tree {
        return Missing;
      }
      match tree[id]
      case RegularFile => r := Error;
      case Directory(content) => r := if content != [] then Found else Missing;
    }

    /** Moves a scratch directory into the store; what is already stored is kept.
        `renames` says whether the rename succeeds, if it is tried. */
    method Add(id: LibraryId, src: Node, renames: bool) returns (ok: bool)
      modifies this
      ensures !ok ==> tree == old(tree)
      ensures ok <==> id != "" && !(id in old(tree) && old(tree)[id].RegularFile?) &&
                      (id in Stored(old(tree)) || (src.Directory? && src.content != [] && renames))
      ensures ok ==> (Stored(tree) ==
                      if id in Stored(old(tree)) then Stored(old(tree)) else Stored(old(tree))[id := src.content])
      ensures old(Sound(tree)) ==> Sound(tree)
    {
      var found := Get(id);
      if found != Missing {
        return found == Found;
      }
      if src.RegularFile? || src.content == [] {
        return false;
      }
      if !renames {
        return false;
      }
      tree := tree[id := src];
      ok := true;
      assert Stored(tree) == Stored(old(tree))[id := src.content];
    }

    /** `left` is what a failed `RemoveAll` leaves behind, if it fails. */
    method Remove(id: LibraryId, left: Option<Node>) returns (ok: bool)
      modifies this
      ensures ok ==> id != "" && Stored(tree) == Stored(old(tree)) - {id}
      ensures ok <==> id != "" && !(id in old(tree) && old(tree)[id].RegularFile?) &&
                      (id !in Stored(old(tree)) || left.None?)
      ensures forall l | l != id :: (l in tree <==> l in old(tree)) && (l in tree ==> tree[l] == old(tree)[l])
      ensures old(Sound(tree)) && left.None? ==> Sound(tree)
    {
      var found := Get(id);
      if found == Error {
        return false;
      }
      if found == Missing {
        assert Stored(tree) == Stored(tree) - {id};
        return true;
      }
      if left.Some? {
        tree := tree[id := left.value];
        return false;
      }
      tree := tree - {id};
      ok := true;
      assert Stored(tree) == Stored(old(tree)) - {id};
    }
  }
}
