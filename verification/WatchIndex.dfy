/**
  The watcher's index as values: what it awaits, when it is well formed, what it means, and what the three ways of
  changing it do to that.
*/
module WatchIndex {
  import opened Paths
  import opened WatchSpec

  type DirTable = map<Path, seq<Name>>
  type WdTable = map<int, Path>

  // ----- What an index says -----

  ghost predicate Distinct(names: seq<Name>) {
    forall i, j :: 0 <= i < j < |names| ==> names[i] != names[j]
  }

  /** Path p is on the list of its directory. */
  ghost predicate Awaits(dirs: DirTable, p: Path) {
    p != [] && Parent(p) in dirs && Base(p) in dirs[Parent(p)]
  }

  /**
    Lists are non-empty and without repetition; a directory that has a list and is missing is itself awaited, or is
    `open`, the one whose own registration is under way.
  */
  ghost predicate Listed(dirs: DirTable, files: set<Path>, open: set<Path>) {
    && Tree(files)
    && (forall d :: d in dirs ==> dirs[d] != [] && Distinct(dirs[d]))
    && (forall d {:trigger Awaits(dirs, d)} :: d in dirs ==> d in files || d in open || Awaits(dirs, d))
  }

  /** The live watches are exactly on the existing directories that have a list, one watch each. */
  ghost predicate Watching(dirs: DirTable, wds: WdTable, files: set<Path>) {
    && (forall w :: w in wds ==> wds[w] in dirs && wds[w] in files)
    && (forall d :: d in dirs && d in files ==> exists w :: w in wds && wds[w] == d)
    && (forall v, w :: v in wds && w in wds && wds[v] == wds[w] ==> v == w)
  }

  /** The relation the index is to be: the missing parts of the targets' paths, and the targets listed too late. */
  ghost predicate Means(dirs: DirTable, targets: set<Path>, lost: set<Path>, files: set<Path>) {
    && SetAntichain(targets)
    && lost <= targets && lost <= files
    && forall p {:trigger Awaits(dirs, p)} {:trigger Needed(targets, files, p)} ::
         Awaits(dirs, p) <==> p in lost || Needed(targets, files, p)
  }

  /** Everything together. */
  ghost predicate Exact(dirs: DirTable, wds: WdTable, targets: set<Path>, lost: set<Path>, files: set<Path>) {
    Listed(dirs, files, {}) && Watching(dirs, wds, files) && Means(dirs, targets, lost, files)
  }

  // ----- Consequences -----

  /** p is path or a directory above it, and missing. */
  ghost predicate MissingAbove(files: set<Path>, p: Path, path: Path) {
    p != [] && p <= path && p !in files
  }

  lemma MissingStep(files: set<Path>, path: Path)
    requires path != []
    ensures forall p :: MissingAbove(files, p, path) <==>
                        (p == path && path !in files) || MissingAbove(files, p, Parent(path))
  {
    forall p ensures MissingAbove(files, p, path) <==>
                     (p == path && path !in files) || MissingAbove(files, p, Parent(path)) {
      if p <= path && |p| == |path| {
        assert p == path;
      }
    }
  }

  /** Below a missing proper ancestor of a target, the next directory down is needed too. */
  lemma NextNeeded(targets: set<Path>, files: set<Path>, p: Path, t: Path) returns (q: Path)
    requires Tree(files) && t in targets && p < t && p !in files
    ensures IsChild(q, p) && q <= t && Needed(targets, files, q)
  {
    q := t[..|p| + 1];
    assert Parent(q) == p && AtOrAbove(q, t);
  }

  ghost predicate IsChild(p: Path, dir: Path) {
    p != [] && Parent(p) == dir
  }

  /** Every missing directory above a listed one is awaited. */
  lemma {:induction false} ChainAwaited(dirs: DirTable, files: set<Path>, open: Path, d: Path, p: Path)
    requires Listed(dirs, files, {open})
    requires d in dirs && p <= d && p != [] && p !in files && !(open <= d)
    ensures Awaits(dirs, p)
    decreases |d|
  {
    if d in files {
      PrefixesExist(files, d, p);
    } else if p != d {
      assert p <= Parent(d) && Awaits(dirs, d);
      ChainAwaited(dirs, files, open, Parent(d), p);
    }
  }

  /** Above every listed directory there is a watched one: nothing is awaited in vain. */
  lemma {:induction false} SomeWatchAbove(dirs: DirTable, wds: WdTable, files: set<Path>, d: Path) returns (w: int)
    requires Listed(dirs, files, {}) && Watching(dirs, wds, files) && d in dirs
    ensures w in wds && wds[w] <= d
    decreases |d|
  {
    if d in files {
      w :| w in wds && wds[w] == d;
    } else {
      assert Awaits(dirs, d);
      w := SomeWatchAbove(dirs, wds, files, Parent(d));
    }
  }

  // ----- Registering a path -----

  /** The lists after path has been registered: directories get a list of one, up to the first that has one or exists. */
  function AddName(dirs: DirTable, files: set<Path>, path: Path): DirTable
    requires path != []
    decreases |path|
  {
    var d := Parent(path);
    if d in dirs then dirs[d := dirs[d] + [Base(path)]]
    else if d in files || d == [] then dirs[d := [Base(path)]]
    else AddName(dirs[d := [Base(path)]], files, d)
  }

  /** The directory that gets a watch thereby, or the empty set. */
  function NewWatch(dirs: DirTable, files: set<Path>, path: Path): set<Path>
    requires path != []
    decreases |path|
  {
    var d := Parent(path);
    if d in dirs then {}
    else if d in files || d == [] then {d}
    else NewWatch(dirs[d := [Base(path)]], files, d)
  }

  /** In a directory that exists or has a list the registration stops at once. */
  lemma AddChild(dirs: DirTable, files: set<Path>, path: Path)
    requires path != [] && (Parent(path) in dirs || Parent(path) in files)
    ensures var d := Parent(path);
            && AddName(dirs, files, path) == ListedIn(dirs, path)
            && NewWatch(dirs, files, path) == if d in dirs then {} else {d}
  {
  }

  ghost predicate OneMore(wds: WdTable, wds': WdTable, dirs: set<Path>) {
    if dirs == {} then wds' == wds else exists w, d :: w !in wds && dirs == {d} && wds' == wds[w := d]
  }

  lemma WatchThere(wds: WdTable, wds': WdTable, d: Path)
    requires OneMore(wds, wds', {d})
    ensures wds' != map[]
  {
    var w, e :| w !in wds && {d} == {e} && wds' == wds[w := e];
    assert w in wds';
  }

  /** The lists after one name has been put on its directory's. */
  function ListedIn(dirs: DirTable, path: Path): DirTable
    requires path != []
  {
    var d := Parent(path);
    dirs[d := if d in dirs then dirs[d] + [Base(path)] else [Base(path)]]
  }

  lemma NameAppended(dirs: DirTable, path: Path)
    requires path != []
    ensures forall p :: Awaits(ListedIn(dirs, path), p) <==> Awaits(dirs, p) || p == path
  {
    forall p ensures Awaits(ListedIn(dirs, path), p) <==> Awaits(dirs, p) || p == path {
      if IsChild(p, Parent(path)) {
        assert p == Parent(p) + [Base(p)] && path == Parent(path) + [Base(path)];
      }
    }
  }

  /** What is missing without an entry is its directory at most, and only if it had no list before. */
  lemma ListingKeeps(dirs: DirTable, files: set<Path>, path: Path)
    requires Listed(dirs, files, {path}) && path != [] && !Awaits(dirs, path)
    ensures var d := Parent(path);
            Listed(ListedIn(dirs, path), files, if d in dirs || d in files then {} else {d})
  {
    var d, dirs' := Parent(path), ListedIn(dirs, path);
    NameAppended(dirs, path);
    forall e | e in dirs' && e !in files && (e != d || d in dirs) ensures Awaits(dirs', e) {
      assert e in dirs && e != path ==> Awaits(dirs, e);
    }
    if d in dirs {
      assert Base(path) !in dirs[d];
    }
  }

  /** Above a directory that exists or has a list, every missing directory is awaited. */
  lemma MissingAwaited(dirs: DirTable, files: set<Path>, path: Path)
    requires Listed(dirs, files, {path}) && path != [] && (Parent(path) in dirs || Parent(path) in files)
    ensures forall p :: MissingAbove(files, p, Parent(path)) ==> Awaits(dirs, p)
  {
    var d := Parent(path);
    forall p | MissingAbove(files, p, d) ensures Awaits(dirs, p) {
      if d in files {
        PrefixesExist(files, d, p);
      } else {
        ChainAwaited(dirs, files, path, d, p);
      }
    }
  }

  lemma RootExists(dirs: DirTable, files: set<Path>, open: set<Path>)
    requires Listed(dirs, files, open)
    ensures [] in files
  {
  }

  /** Registering a path adds it and the missing directories above it, and nothing else. */
  lemma {:induction false} AddNameAwaits(dirs: DirTable, files: set<Path>, path: Path)
    requires Listed(dirs, files, {path}) && path != [] && !Awaits(dirs, path)
    requires forall p :: Awaits(dirs, p) && MissingAbove(files, p, path) && p != path ==> p in dirs
    ensures Listed(AddName(dirs, files, path), files, {})
    ensures forall p :: Awaits(AddName(dirs, files, path), p) <==>
                        Awaits(dirs, p) || p == path || MissingAbove(files, p, path)
    decreases |path|
  {
    hide Listed, Awaits;
    var d := Parent(path);
    NameAppended(dirs, path);
    MissingStep(files, path);
    ListingKeeps(dirs, files, path);
    RootExists(dirs, files, {path});
    if d in dirs || d in files {
      MissingAwaited(dirs, files, path);
      assert AddName(dirs, files, path) == ListedIn(dirs, path);
    } else {
      assert AddName(dirs, files, path) == AddName(ListedIn(dirs, path), files, d);
      AddNameAwaits(ListedIn(dirs, path), files, d);
    }
  }

  lemma {:induction false} AddNameWatching(dirs: DirTable, wds: WdTable, wds': WdTable, files: set<Path>, path: Path)
    requires Tree(files) && Watching(dirs, wds, files) && path != []
    requires OneMore(wds, wds', NewWatch(dirs, files, path))
    ensures Watching(AddName(dirs, files, path), wds', files)
    decreases |path|
  {
    var d := Parent(path);
    if d in dirs {
    } else if d in files || d == [] {
      var w :| w !in wds && wds' == wds[w := d];
      assert wds'[w] == d;
      forall e | e in dirs && e in files ensures exists v :: v in wds' && wds'[v] == e {
        var v :| v in wds && wds[v] == e;
        assert wds'[v] == e;
      }
    } else {
      AddNameWatching(dirs[d := [Base(path)]], wds, wds', files, d);
    }
  }

  /** What registering a path does to the meaning of the index: a target is added, lost when it exists already. */
  lemma Registering(dirs: DirTable, wds: WdTable, wds': WdTable, targets: set<Path>, lost: set<Path>,
                    files: set<Path>, path: Path)
    requires Exact(dirs, wds, targets, lost, files)
    requires path != [] && path !in targets && SetAntichain(targets + {path})
    requires path !in files || Parent(path) in dirs
    requires OneMore(wds, wds', NewWatch(dirs, files, path))
    ensures Exact(AddName(dirs, files, path), wds', targets + {path}, if path in files then lost + {path} else lost, files)
  {
    NoTargetAbove(dirs, targets, lost, files, path);
    AddNameAwaits(dirs, files, path);
    AddNameWatching(dirs, wds, wds', files, path);
    RegisteringMeans(dirs, AddName(dirs, files, path), targets, lost, files, path);
  }

  lemma NoTargetAbove(dirs: DirTable, targets: set<Path>, lost: set<Path>, files: set<Path>, path: Path)
    requires Listed(dirs, files, {}) && Means(dirs, targets, lost, files)
    requires path != [] && path !in targets && SetAntichain(targets + {path})
    ensures Listed(dirs, files, {path}) && !Awaits(dirs, path)
    ensures forall p :: Awaits(dirs, p) && MissingAbove(files, p, path) && p != path ==> p in dirs
  {
    if Awaits(dirs, path) {
      assert false;
    }
    forall p | Awaits(dirs, p) && MissingAbove(files, p, path) && p != path ensures p in dirs {
      AwaitedAboveListed(dirs, targets, lost, files, path, p);
    }
  }

  lemma AwaitedAboveListed(dirs: DirTable, targets: set<Path>, lost: set<Path>, files: set<Path>, path: Path, p: Path)
    requires Listed(dirs, files, {}) && Means(dirs, targets, lost, files) && SetAntichain(targets + {path})
    requires Awaits(dirs, p) && MissingAbove(files, p, path) && p != path
    ensures p in dirs
  {
    var t :| t in targets && p <= t;
    if t == p {
      assert AtOrAbove(t, path) && path in targets + {path} && t in targets + {path};
      assert false;
    }
    var q := NextNeeded(targets, files, p, t);
    assert Awaits(dirs, q);
  }

  lemma RegisteringMeans(dirs: DirTable, dirs': DirTable, targets: set<Path>, lost: set<Path>, files: set<Path>, path: Path)
    requires Tree(files) && Means(dirs, targets, lost, files) && path != [] && SetAntichain(targets + {path})
    requires forall p :: Awaits(dirs', p) <==>
                         Awaits(dirs, p) || p == path || MissingAbove(files, p, path)
    ensures Means(dirs', targets + {path}, if path in files then lost + {path} else lost, files)
  {
    forall p ensures Needed(targets + {path}, files, p) <==>
                     Needed(targets, files, p) || MissingAbove(files, p, path) {
      assert AtOrAbove(p, path) <==> p <= path;
      assert path in targets + {path};
      if t :| t in targets && AtOrAbove(p, t) {
        assert t in targets + {path};
      }
    }
    if path in files {
      forall p | p <= path ensures p in files {
        PrefixesExist(files, path, p);
      }
    }
  }

  // ----- An awaited path is created -----

  /** A list without the first occurrence of a name. */
  function Without(names: seq<Name>, name: Name): (rest: seq<Name>)
    ensures forall n :: n in rest ==> n in names
    ensures forall n :: n in names && n != name ==> n in rest
    ensures Distinct(names) ==> Distinct(rest) && name !in rest
  {
    if names == [] then []
    else if names[0] == name then names[1..]
    else
      var tail := Without(names[1..], name);
      assert Distinct(names) ==> Distinct(names[1..]) && names[0] !in names[1..];
      assert forall i :: 0 < i < |[names[0]] + tail| ==> ([names[0]] + tail)[i] == tail[i - 1];
      [names[0]] + tail
  }

  function DropName(dirs: DirTable, dir: Path, name: Name): DirTable
    requires dir in dirs
  {
    var rest := Without(dirs[dir], name);
    if rest == [] then dirs - {dir} else dirs[dir := rest]
  }

  function DropWatch(dirs: DirTable, wds: WdTable, wd: int, name: Name): WdTable
    requires wd in wds && wds[wd] in dirs
  {
    if Without(dirs[wds[wd]], name) == [] then wds - {wd} else wds
  }

  /** The name goes off its list, and that is all that changes: the list of the new directory, if any, stays. */
  lemma DropNameAwaits(dirs: DirTable, files: set<Path>, path: Path)
    requires Listed(dirs, files, {}) && Awaits(dirs, path) && path !in files && Parent(path) in files
    ensures Listed(DropName(dirs, Parent(path), Base(path)), files + {path}, {})
    ensures forall p :: Awaits(DropName(dirs, Parent(path), Base(path)), p) <==> Awaits(dirs, p) && p != path
  {
    var dirs' := DropName(dirs, Parent(path), Base(path));
    forall p ensures Awaits(dirs', p) <==> Awaits(dirs, p) && p != path {
      if IsChild(p, Parent(path)) {
        assert p == Parent(p) + [Base(p)] && path == Parent(path) + [Base(path)];
      }
    }
  }

  lemma DropNameWatching(dirs: DirTable, wds: WdTable, wds': WdTable, files: set<Path>, wd: int, path: Path)
    requires Watching(dirs, wds, files) && wd in wds && path != [] && path !in files && wds[wd] == Parent(path)
    requires OneMore(DropWatch(dirs, wds, wd, Base(path)), wds', if path in dirs then {path} else {})
    ensures Watching(DropName(dirs, Parent(path), Base(path)), wds', files + {path})
  {
    var dirs', mid := DropName(dirs, Parent(path), Base(path)), DropWatch(dirs, wds, wd, Base(path));
    forall e | e in dirs' && e in files + {path} ensures exists v :: v in wds' && wds'[v] == e {
      if e == path {
        var w, d :| w !in mid && {path} == {d} && wds' == mid[w := d];
        assert d in {path};
        assert wds'[w] == e;
      } else {
        var v :| v in wds && wds[v] == e;
        assert v in mid && wds'[v] == e;
      }
    }
  }

  /** What the creation of an awaited path does to the meaning of the index. */
  lemma Creating(dirs: DirTable, wds: WdTable, wds': WdTable, targets: set<Path>, lost: set<Path>, files: set<Path>,
                 wd: int, path: Path)
    requires Exact(dirs, wds, targets, lost, files)
    requires path !in files && Awaits(dirs, path) && wd in wds && wds[wd] == Parent(path)
    requires OneMore(DropWatch(dirs, wds, wd, Base(path)), wds', if path in dirs then {path} else {})
    ensures Exact(DropName(dirs, Parent(path), Base(path)), wds', targets, lost, files + {path})
    ensures path in targets <==> path !in dirs
  {
    DropNameAwaits(dirs, files, path);
    DropNameWatching(dirs, wds, wds', files, wd, path);
    CreatingMeans(dirs, DropName(dirs, Parent(path), Base(path)), targets, lost, files, path);
    CreatedIsTarget(dirs, targets, lost, files, path);
  }

  lemma CreatingMeans(dirs: DirTable, dirs': DirTable, targets: set<Path>, lost: set<Path>, files: set<Path>, path: Path)
    requires Means(dirs, targets, lost, files) && path !in files
    requires forall p :: Awaits(dirs', p) <==> Awaits(dirs, p) && p != path
    ensures Means(dirs', targets, lost, files + {path})
  {
  }

  /** An awaited path that appears is either a target or a directory that has a list. */
  lemma CreatedIsTarget(dirs: DirTable, targets: set<Path>, lost: set<Path>, files: set<Path>, path: Path)
    requires Listed(dirs, files, {}) && Means(dirs, targets, lost, files) && path !in files && Awaits(dirs, path)
    ensures path in targets <==> path !in dirs
  {
    assert Needed(targets, files, path);
    if path in dirs {
      var q := path + [dirs[path][0]];
      assert IsChild(q, path) && Awaits(dirs, q);
      assert q !in files;
      var u :| u in targets && q <= u;
      assert path <= u && path != u && AtOrAbove(path, u);
    } else {
      var t :| t in targets && path <= t;
      if t != path {
        assert AtOrAbove(path, t);
        var q := NextNeeded(targets, files, path, t);
      }
    }
  }

  /** A listed directory has somebody waiting for it. */
  lemma PendingList(dirs: DirTable, wds: WdTable, targets: set<Path>, lost: set<Path>, files: set<Path>, d: Path)
    requires Exact(dirs, wds, targets, lost, files) && d in dirs
    ensures Tree(files) && dirs[d] != []
  {
  }

  /** Nothing exists below a directory that is just being created. */
  lemma ChildrenMissing(files: set<Path>, path: Path)
    requires Tree(files) && path !in files
    ensures forall c :: path + [c] !in files + {path}
  {
    forall c ensures path + [c] !in files + {path} {
      assert Parent(path + [c]) == path;
    }
  }

  /** A creation the index has no name for concerns neither a target nor a directory that has a list. */
  lemma NotAwaited(dirs: DirTable, wds: WdTable, targets: set<Path>, lost: set<Path>, files: set<Path>, path: Path)
    requires Exact(dirs, wds, targets, lost, files)
    requires path != [] && path !in files && Parent(path) in files && !Awaits(dirs, path)
    ensures path !in targets
    ensures Exact(dirs, wds, targets, lost, files + {path})
  {
    assert AtOrAbove(path, path);
    assert path in dirs ==> Awaits(dirs, path);
  }

  /** No watch is left exactly when every target exists and none was lost. */
  lemma NoWatchLeft(dirs: DirTable, wds: WdTable, targets: set<Path>, lost: set<Path>, files: set<Path>)
    requires Exact(dirs, wds, targets, lost, files)
    ensures wds == map[] <==> targets <= files && lost == {}
  {
    if t :| t in targets && t !in files {
      assert AtOrAbove(t, t) && Needed(targets, files, t);
      var w := SomeWatchAbove(dirs, wds, files, Parent(t));
    } else if t :| t in lost {
      assert Awaits(dirs, t);
      var w := SomeWatchAbove(dirs, wds, files, Parent(t));
    } else {
      forall w | w in wds ensures false {
        var d := wds[w];
        var p := d + [dirs[d][0]];
        assert IsChild(p, d) && Awaits(dirs, p);
        var t :| t in targets && p <= t && p !in files;
        PrefixesExist(files, t, p);
      }
    }
  }

  /** A directory that exists has a list exactly when a registered target waits in it. */
  lemma ListedWaits(dirs: DirTable, wds: WdTable, watchList: seq<Path>, i: nat, files: set<Path>, dir: Path)
    requires Antichain(watchList) && i <= |watchList| && dir in files
    requires Exact(dirs, wds, ToSet(watchList[..i]), LostBefore(files, watchList, i), files)
    ensures dir in dirs <==> exists j :: 0 <= j < i && WaitsIn(files, watchList[j], dir)
  {
    if dir in dirs {
      var p := dir + [dirs[dir][0]];
      assert IsChild(p, dir) && Awaits(dirs, p);
      if p in LostBefore(files, watchList, i) {
        var k: nat :| k < i && Swallowed(files, watchList, k) && watchList[k] == p;
      } else {
        NeededWaits(watchList, i, files, dir, p);
      }
    }
    if j :| 0 <= j < i && WaitsIn(files, watchList[j], dir) {
      var p := WaitsNeeded(watchList, i, j, files, dir);
      assert Awaits(dirs, p);
    }
  }

  lemma NeededWaits(watchList: seq<Path>, i: nat, files: set<Path>, dir: Path, p: Path)
    requires i <= |watchList| && Tree(files) && dir in files && IsChild(p, dir)
    requires Needed(ToSet(watchList[..i]), files, p)
    ensures exists j :: 0 <= j < i && WaitsIn(files, watchList[j], dir)
  {
    var t :| t in ToSet(watchList[..i]) && p <= t;
    var j :| 0 <= j < i && watchList[j] == t;
    if t in files {
      PrefixesExist(files, t, p);
    }
    assert t[..|dir|] == dir && t[..|dir| + 1] == p;
  }

  lemma WaitsNeeded(watchList: seq<Path>, i: nat, j: nat, files: set<Path>, dir: Path) returns (p: Path)
    requires j < i <= |watchList| && WaitsIn(files, watchList[j], dir)
    ensures IsChild(p, dir) && Needed(ToSet(watchList[..i]), files, p)
  {
    var t := watchList[j];
    p := t[..|dir| + 1];
    assert t in ToSet(watchList[..i]) && Parent(p) == dir && AtOrAbove(p, t);
  }

  /** One more target, with the lost ones. */
  lemma OneMoreTarget(files: set<Path>, watchList: seq<Path>, i: nat)
    requires Antichain(watchList) && i < |watchList|
    ensures ToSet(watchList[..i + 1]) == ToSet(watchList[..i]) + {watchList[i]}
    ensures watchList[i] !in ToSet(watchList[..i]) && SetAntichain(ToSet(watchList[..i + 1]))
    ensures LostBefore(files, watchList, i + 1) ==
            LostBefore(files, watchList, i) + if Swallowed(files, watchList, i) then {watchList[i]} else {}
  {
    assert watchList[..i + 1] == watchList[..i] + [watchList[i]];
    forall t, u | t in ToSet(watchList[..i + 1]) && u in ToSet(watchList[..i + 1]) && AtOrAbove(t, u) ensures t == u {
      var j, k :| 0 <= j <= i && 0 <= k <= i && watchList[j] == t && watchList[k] == u;
      assert AtOrAbove(watchList[j], watchList[k]);
    }
    if watchList[i] in watchList[..i] {
      var j :| 0 <= j < i && watchList[j] == watchList[i];
      assert AtOrAbove(watchList[j], watchList[i]);
    }
  }

  /** A target that exists and whose directory has no list changes nothing. */
  lemma RegisteringReady(dirs: DirTable, wds: WdTable, targets: set<Path>, lost: set<Path>, files: set<Path>, path: Path)
    requires Exact(dirs, wds, targets, lost, files) && path in files && SetAntichain(targets + {path})
    ensures Exact(dirs, wds, targets + {path}, lost, files)
  {
    forall p ensures Needed(targets + {path}, files, p) <==> Needed(targets, files, p) {
      if p <= path {
        PrefixesExist(files, path, p);
      }
    }
  }

  /** A target that is not ready is missing, or one before it is. */
  lemma NotReadyMissing(files: set<Path>, watchList: seq<Path>, i: nat)
    requires Antichain(watchList) && i < |watchList|
    ensures watchList[i] !in files || Swallowed(files, watchList, i) ==> !(ToSet(watchList[..i + 1]) <= files)
  {
    assert watchList[i] in watchList[..i + 1];
    if Swallowed(files, watchList, i) {
      var j :| 0 <= j < i && WaitsIn(files, watchList[j], Parent(watchList[i]));
      assert watchList[j] in watchList[..i + 1];
    }
  }

  lemma LostNeedsMissing(files: set<Path>, targets: seq<Path>)
    requires Antichain(targets) && ToSet(targets) <= files
    ensures Lost(files, targets) == {}
  {
  }

  /** One turn of the registration loop. */
  lemma RegisterStep(dirs: DirTable, wds: WdTable, dirs': DirTable, wds': WdTable, ready: bool,
                     watchList: seq<Path>, i: nat, files: set<Path>)
    requires Antichain(watchList) && i < |watchList|
    requires Exact(dirs, wds, ToSet(watchList[..i]), LostBefore(files, watchList, i), files)
    requires ready <==> watchList[i] in files && Parent(watchList[i]) in files && Parent(watchList[i]) !in dirs
    requires ready ==> dirs' == dirs && wds' == wds
    requires !ready ==> dirs' == AddName(dirs, files, watchList[i]) && OneMore(wds, wds', NewWatch(dirs, files, watchList[i]))
    ensures Exact(dirs', wds', ToSet(watchList[..i + 1]), LostBefore(files, watchList, i + 1), files)
    ensures ready <==> watchList[i] in files && !Swallowed(files, watchList, i)
  {
    var path := watchList[i];
    OneMoreTarget(files, watchList, i);
    if path in files {
      PrefixesExist(files, path, Parent(path));
      ListedWaits(dirs, wds, watchList, i, files, Parent(path));
    }
    if ready {
      RegisteringReady(dirs, wds, ToSet(watchList[..i]), LostBefore(files, watchList, i), files, path);
    } else {
      Registering(dirs, wds, wds', ToSet(watchList[..i]), LostBefore(files, watchList, i), files, path);
    }
  }
}
