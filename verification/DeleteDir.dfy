/** src/common/tlm-utils.c: deleting a directory with all that is in it. */
module DeleteDir {
  import opened Paths

  /** What is at a path; a link is given by the path it finally leads to. */
  datatype Node = File | Link(target: Path) | Directory

  type Nodes = map<Path, Node>

  ghost predicate WellFormed(nodes: Nodes) {
    forall q: Path {:trigger Parent(q)} ::
      q in nodes && q != [] ==> Parent(q) in nodes && nodes[Parent(q)] == Directory
  }

  predicate Below(q: Path, p: Path) {
    p <= q && p != q
  }

  ghost function AllBelow(nodes: Nodes, p: Path): set<Path> {
    set q | q in nodes && Below(q, p)
  }

  ghost predicate Less(now: Nodes, before: Nodes) {
    now.Keys <= before.Keys && forall q :: q in now ==> now[q] == before[q]
  }

  class FileSystem {
    var nodes: Nodes
    const unreadable: set<Path>   // directories that cannot be opened
    const unknowable: set<Path>   // nodes lstat fails on
    const sticky: set<Path>       // nodes that cannot be removed

    constructor (nodes: Nodes, unreadable: set<Path>, unknowable: set<Path>, sticky: set<Path>)
      requires WellFormed(nodes)
      ensures this.nodes == nodes
      ensures this.unreadable == unreadable && this.unknowable == unknowable && this.sticky == sticky
    {
      this.nodes, this.unreadable, this.unknowable, this.sticky := nodes, unreadable, unknowable, sticky;
    }

    /** Nothing about the node itself keeps it from being deleted. */
    ghost predicate Deletable(all: Nodes, q: Path)
      requires q in all
    {
      q !in sticky && (all[q] == Directory ==> q !in unreadable)
    }

    ghost predicate ClearBelow(all: Nodes, p: Path) {
      forall q :: q in all && Below(q, p) ==> Deletable(all, q) && q !in unknowable
    }

    /** remove(3): a directory must be empty. */
    method Remove(p: Path) returns (ok: bool)
      requires WellFormed(nodes)
      modifies this`nodes
      ensures WellFormed(nodes)
      ensures ok <==> p in old(nodes) && p !in sticky && AllBelow(old(nodes), p) == {}
      ensures nodes == if ok then old(nodes) - {p} else old(nodes)
    {
      if p !in nodes || p in sticky {
        return false;
      }
      if exists q :: q in nodes && Below(q, p) {
        ghost var q :| q in nodes && Below(q, p);
        assert q in AllBelow(nodes, p);
        return false;
      }
      nodes := nodes - {p};
      assert forall q :: q in old(nodes) && q != [] && Parent(q) == p ==> Below(q, p);
      return true;
    }

    /**
      tlm_utils_delete_dir.  On a directory it succeeds if and only if nothing in the whole tree stands in the way; then
      the tree is gone and nothing else, and if not, only nodes strictly below the directory are gone.  The argument
      itself, unlike all entries below it, is followed when it is a link: the directory it leads to is emptied, stays,
      and the link goes.
    */
    method DeleteDir(path: Path) returns (ok: bool)
      requires WellFormed(nodes)
      modifies this`nodes
      ensures WellFormed(nodes) && Less(nodes, old(nodes))
      ensures path in old(nodes) && old(nodes)[path] == Directory ==>
                && (ok <==> path !in sticky && path !in unreadable &&
                            forall q :: q in old(nodes) && Below(q, path) ==>
                              q !in sticky && q !in unknowable && (old(nodes)[q] == Directory ==> q !in unreadable))
                && (ok ==> nodes == old(nodes) - AllBelow(old(nodes), path) - {path})
                && (!ok ==> path in nodes && old(nodes).Keys - nodes.Keys <= AllBelow(old(nodes), path))
      ensures var dir := if path in old(nodes) && old(nodes)[path].Link? then old(nodes)[path].target else path;
              var opens := dir in old(nodes) && old(nodes)[dir] == Directory && dir !in unreadable;
              && (ok <==> opens && ClearBelow(old(nodes), dir) && path !in sticky && !Below(path, dir))
              && (ok ==> nodes == old(nodes) - AllBelow(old(nodes), dir) - {path})
              && (!opens ==> nodes == old(nodes))
              && (opens && ClearBelow(old(nodes), dir) ==> AllBelow(nodes, dir) == {})
              && (!ok && opens ==> old(nodes).Keys - nodes.Keys <= AllBelow(old(nodes), dir))
      decreases |AllBelow(nodes, Opened(nodes, path))|, 1
    {
      var dir := Opened(nodes, path);
      if !Opens(nodes, dir) {
        return false;
      }
      assert dir !in AllBelow(nodes, dir);
      ok := DeleteEntries(dir);
      if ok {
        if path in nodes && path != dir {
          NothingBelow(nodes, path);
        }
        ok := Remove(path);
      }
    }

    predicate Opens(all: Nodes, dir: Path) {
      dir in all && all[dir] == Directory && dir !in unreadable
    }

    /** One entry: what it is decides how it goes; a link is removed, not followed. */
    method DeleteEntry(filepath: Path) returns (ok: bool)
      requires WellFormed(nodes) && filepath in nodes
      modifies this`nodes
      ensures WellFormed(nodes) && Less(nodes, old(nodes))
      ensures ok <==> Gone(old(nodes), filepath)
      ensures ok ==> nodes == old(nodes) - AllBelow(old(nodes), filepath) - {filepath}
      ensures !ok ==> old(nodes).Keys - nodes.Keys <= AllBelow(old(nodes), filepath)
      decreases |AllBelow(nodes, filepath)|, 2
    {
      if filepath in unknowable {
        return false;
      }
      if nodes[filepath] == Directory {
        ok := DeleteDir(filepath);
      } else {
        NothingBelow(nodes, filepath);
        ok := Remove(filepath);
      }
    }

    /** The loop over the entries of a directory that has been opened. */
    method DeleteEntries(dir: Path) returns (ok: bool)
      requires WellFormed(nodes) && dir in nodes && nodes[dir] == Directory
      modifies this`nodes
      ensures WellFormed(nodes) && Less(nodes, old(nodes))
      ensures ok <==> ClearBelow(old(nodes), dir)
      ensures ok ==> nodes == old(nodes) - AllBelow(old(nodes), dir)
      ensures old(nodes).Keys - nodes.Keys <= AllBelow(old(nodes), dir)
      decreases |AllBelow(nodes, dir)|, 0
    {
      ghost var all := nodes;
      var entries := set q | q in nodes && q != [] && Parent(q) == dir;
      ghost var done := {};
      ok := true;
      while entries != {}
        invariant WellFormed(nodes) && nodes == all - Trees(all, done)
        invariant done + entries == Entries(all, dir) && done !! entries
        invariant AllGone(all, done)
      {
        var filepath :| filepath in entries;
        entries := entries - {filepath};
        ghost var now := nodes;
        TreeUntouched(all, now, done, dir, filepath);
        GoneNow(all, now, filepath);
        ok := DeleteEntry(filepath);
        if !ok {
          NotClear(all, dir, filepath);
          LossBelow(all, now, nodes, done, dir, filepath);
          return;
        }
        TreesMore(all, now, done, filepath);
        done := done + {filepath};
      }
      AllEntries(all, dir);
      AllClear(all, dir);
    }

    ghost predicate AllGone(all: Nodes, done: set<Path>) {
      forall c :: c in done ==> Gone(all, c)
    }

    lemma GoneNow(all: Nodes, now: Nodes, c: Path)
      requires c in now && Less(now, all) && AllBelow(now, c) == AllBelow(all, c)
      ensures Gone(now, c) <==> Gone(all, c)
    {
      forall q | q in all && Below(q, c) ensures q in now {
        assert q in AllBelow(all, c);
      }
    }

    lemma NotClear(all: Nodes, dir: Path, c: Path)
      requires c in Entries(all, dir) && !Gone(all, c)
      ensures !ClearBelow(all, dir)
    {
    }

    lemma AllClear(all: Nodes, dir: Path)
      requires WellFormed(all) && AllGone(all, Entries(all, dir))
      ensures ClearBelow(all, dir)
    {
      forall q | q in all && Below(q, dir) ensures Deletable(all, q) && q !in unknowable {
        var c := EntryAbove(all, dir, q);
        assert Gone(all, c);
      }
    }

    /** Everything from entry c down could be deleted. */
    ghost predicate Gone(all: Nodes, c: Path) {
      c in all && Deletable(all, c) && c !in unknowable && ClearBelow(all, c)
    }
  }

  /** opendir follows a link. */
  function Opened(all: Nodes, path: Path): Path {
    if path in all && all[path].Link? then all[path].target else path
  }

  ghost function Entries(all: Nodes, dir: Path): set<Path> {
    set q | q in all && q != [] && Parent(q) == dir
  }

  /** The trees under some nodes. */
  ghost function Trees(all: Nodes, tops: set<Path>): set<Path> {
    set c, q | c in tops && q in all && c <= q :: q
  }

  /** Whatever a node lies below is a directory. */
  lemma {:induction false} DirectoryAbove(all: Nodes, q: Path, p: Path)
    requires WellFormed(all) && q in all && Below(q, p)
    ensures p in all && all[p] == Directory
    decreases |q|
  {
    var d := Parent(q);
    assert d in all;
    if d != p {
      assert p <= d;
      DirectoryAbove(all, d, p);
    }
  }

  /** The entry of dir under which, or at which, q lies. */
  lemma EntryAbove(all: Nodes, dir: Path, q: Path) returns (c: Path)
    requires WellFormed(all) && q in all && Below(q, dir)
    ensures c in Entries(all, dir) && c <= q
  {
    c := q[..|dir| + 1];
    if c != q {
      DirectoryAbove(all, q, c);
    }
    assert Parent(c) == dir;
  }

  lemma AllEntries(all: Nodes, dir: Path)
    requires WellFormed(all)
    ensures Trees(all, Entries(all, dir)) == AllBelow(all, dir)
  {
    forall q | q in AllBelow(all, dir) ensures q in Trees(all, Entries(all, dir)) {
      var c := EntryAbove(all, dir, q);
    }
    forall q | q in Trees(all, Entries(all, dir)) ensures q in AllBelow(all, dir) {
      var c :| c in Entries(all, dir) && c <= q;
      assert dir <= c;
    }
  }

  /** The trees of different entries are apart: deleting some leaves the others as they were. */
  lemma TreeUntouched(all: Nodes, now: Nodes, done: set<Path>, dir: Path, c: Path)
    requires WellFormed(all) && now == all - Trees(all, done)
    requires done <= Entries(all, dir) && c in Entries(all, dir) && c !in done
    ensures c in now && AllBelow(now, c) == AllBelow(all, c)
    ensures AllBelow(all, c) + {c} <= AllBelow(all, dir)
    ensures |AllBelow(now, c)| < |AllBelow(all, dir)|
    ensures Trees(all, done) <= AllBelow(all, dir)
  {
    forall q | q in all && c <= q ensures q !in Trees(all, done) {
      if d :| d in done && d <= q {
        assert |d| == |dir| + 1 == |c| && q[..|d|] == d && q[..|c|] == c;
      }
    }
    assert dir <= c;
    assert c !in AllBelow(all, c);
    Smaller(AllBelow(all, c), AllBelow(all, dir), c);
    forall q | q in Trees(all, done) ensures q in AllBelow(all, dir) {
      var d :| d in done && d <= q;
      assert dir <= d;
    }
  }

  /** Only directories have something below them. */
  lemma NothingBelow(all: Nodes, c: Path)
    requires WellFormed(all) && c in all && all[c] != Directory
    ensures AllBelow(all, c) == {}
  {
    forall q | q in AllBelow(all, c) ensures false {
      DirectoryAbove(all, q, c);
    }
  }

  lemma Smaller(a: set<Path>, b: set<Path>, x: Path)
    requires a + {x} <= b && x !in a
    ensures |a| < |b|
  {
    assert |a + {x}| == |a| + 1;
    assert b == (a + {x}) + (b - (a + {x}));
    assert |b| == |a + {x}| + |b - (a + {x})|;
  }

  /** A run that stops at entry c has removed nothing but what lies below dir. */
  lemma LossBelow(all: Nodes, now: Nodes, after: Nodes, done: set<Path>, dir: Path, c: Path)
    requires now == all - Trees(all, done) && Trees(all, done) <= AllBelow(all, dir)
    requires Less(after, now) && now.Keys - after.Keys <= AllBelow(now, c)
    requires AllBelow(now, c) == AllBelow(all, c) && AllBelow(all, c) + {c} <= AllBelow(all, dir)
    ensures Less(after, all) && all.Keys - after.Keys <= AllBelow(all, dir)
  {
  }

  lemma TreesMore(all: Nodes, now: Nodes, done: set<Path>, c: Path)
    requires now == all - Trees(all, done) && c in all && AllBelow(now, c) == AllBelow(all, c)
    ensures now - AllBelow(now, c) - {c} == all - Trees(all, done + {c})
  {
  }
}
