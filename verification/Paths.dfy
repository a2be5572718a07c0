/** Absolute, normalised paths: the sequence of names below the root directory. */
module Paths {
  type Name = string
  type Path = seq<Name>

  function Parent(p: Path): Path
    requires p != []
  {
    p[..|p| - 1]
  }

  function Base(p: Path): Name
    requires p != []
  {
    p[|p| - 1]
  }

  /** A file system as the set of its nodes: the root exists, and so does the directory of every node. */
  ghost predicate Tree(files: set<Path>) {
    [] in files && forall p: Path {:trigger Parent(p)} :: p in files && p != [] ==> Parent(p) in files
  }

  lemma PrefixesExist(files: set<Path>, p: Path, q: Path)
    requires Tree(files) && p in files && q <= p
    ensures q in files
    decreases |p|
  {
    if q != p {
      assert q <= Parent(p);
      PrefixesExist(files, Parent(p), q);
    }
  }
}
