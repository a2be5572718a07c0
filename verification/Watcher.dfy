/** src/common/tlm-utils.c: waiting for files to appear. */
module Watcher {
  import opened Paths
  import opened Wrappers
  import opened Inotify
  import opened WatchSpec
  import opened WatchIndex

  datatype AddWatchResult = WatchAdded | WatchReady

  class WatchInfo {
    const kernel: Kernel
    var dirTable: DirTable
    var wdTable: WdTable
    var log: seq<Report>          // the calls of the user's callback
    ghost var targets: set<Path>  // what has been asked for
    ghost var lost: set<Path>     // targets put on a list although they exist

    /** The table of watches is the kernel's, and watches stand on listed directories only. */
    ghost predicate Synced()
      reads this, kernel
    {
      && kernel.Valid() && kernel.watches == wdTable && Quiet(kernel.queue)
      && forall w :: w in wdTable ==> wdTable[w] in dirTable
    }

    /** The index is exact for the file system `files`. */
    ghost predicate Serves(files: set<Path>)
      reads this, kernel
    {
      kernel.Valid() && kernel.watches == wdTable && Exact(dirTable, wdTable, targets, lost, files)
    }

    constructor (kernel: Kernel)
      requires kernel.Valid() && kernel.watches == map[]
      ensures this.kernel == kernel && log == [] && targets == {} && lost == {}
      ensures Serves(kernel.files)
    {
      this.kernel, dirTable, wdTable, log := kernel, map[], map[], [];
      targets, lost := {}, {};
    }

    method AddWatch(path: Path) returns (res: AddWatchResult)
      requires Synced() && path != []
      modifies this`dirTable, this`wdTable, kernel
      ensures Synced() && kernel.files == old(kernel.files)
      ensures res.WatchReady? <==> path in kernel.files && Parent(path) in kernel.files && Parent(path) !in old(dirTable)
      ensures res.WatchReady? ==> dirTable == old(dirTable) && wdTable == old(wdTable)
      ensures res.WatchAdded? ==>
                && dirTable == AddName(old(dirTable), kernel.files, path)
                && OneMore(old(wdTable), wdTable, NewWatch(old(dirTable), kernel.files, path))
      decreases |path|
    {
      var fileName, dir := Base(path), Parent(path);
      if dir in dirTable {
        dirTable := dirTable[dir := dirTable[dir] + [fileName]];
        return WatchAdded;
      }
      dirTable := dirTable[dir := [fileName]];
      if dir !in kernel.files {
        res := AddWatch(dir);
        return;
      }
      var wd := kernel.AddWatch(dir);
      assert wd !in old(wdTable);
      if path in kernel.files {
        kernel.RemoveWatch(wd);
        dirTable := dirTable - {dir};
        assert dirTable == old(dirTable) && kernel.watches == old(wdTable);
        return WatchReady;
      }
      wdTable := wdTable[wd := dir];
      return WatchAdded;
    }

    /** `name` is taken off its list; an empty list goes, and its watch with it. */
    method TakeOff(wd: int, name: Name, nwatch: nat) returns (n: nat)
      requires Synced() && wd in wdTable && nwatch == |wdTable|
      modifies this`dirTable, this`wdTable, kernel
      ensures kernel.Valid() && kernel.watches == wdTable && kernel.files == old(kernel.files) && Quiet(kernel.queue)
      ensures dirTable == DropName(old(dirTable), old(wdTable[wd]), name)
      ensures wdTable == DropWatch(old(dirTable), old(wdTable), wd, name)
      ensures n == |wdTable|
    {
      var dir := wdTable[wd];
      n := nwatch;
      var fileList := Without(dirTable[dir], name);
      if fileList == [] {
        dirTable, wdTable := dirTable - {dir}, wdTable - {wd};
        kernel.RemoveWatch(wd);
        assert old(wdTable).Keys == wdTable.Keys + {wd};
        n := n - 1;
      } else {
        dirTable := dirTable[dir := fileList];
      }
    }

    /**
      The names that waited for the directory dirPath are registered anew, now that it exists.  When nothing exists
      below it yet, the list comes back as it was, with a watch, and no call is made.
    */
    method Reattach(dirPath: Path, pendingList: seq<Name>, nwatch: nat) returns (n: nat)
      requires Synced() && pendingList != [] && dirPath in kernel.files && dirPath !in dirTable
      modifies this`dirTable, this`wdTable, this`log, kernel
      ensures Synced() && kernel.files == old(kernel.files)
      ensures Bare(dirPath) ==>
                && dirTable == old(dirTable)[dirPath := pendingList]
                && OneMore(old(wdTable), wdTable, {dirPath})
                && n == nwatch + |pendingList|
                && log == old(log)
    {
      hide AddName, NewWatch;
      n := nwatch;
      var i := 0;
      while i < |pendingList|
        invariant 0 <= i <= |pendingList|
        invariant Synced() && kernel.files == old(kernel.files)
        invariant Bare(dirPath) ==>
                    && n == nwatch + i && log == old(log)
                    && dirTable == (if i == 0 then old(dirTable) else old(dirTable)[dirPath := pendingList[..i]])
                    && OneMore(old(wdTable), wdTable, if i == 0 then {} else {dirPath})
      {
        var newFilePath := dirPath + [pendingList[i]];
        assert Parent(newFilePath) == dirPath && Base(newFilePath) == pendingList[i];
        assert Bare(dirPath) ==>
            newFilePath !in kernel.files &&
            pendingList[..i + 1] == if i == 0 then [Base(newFilePath)] else dirTable[dirPath] + [Base(newFilePath)];
        ghost var dirs := dirTable;
        AddChild(dirTable, kernel.files, newFilePath);
        var res := AddWatch(newFilePath);
        assert Bare(dirPath) ==> dirTable == dirs[dirPath := pendingList[..i + 1]];
        if res.WatchReady? {
          log := log + [Report(newFilePath, n == 0)];
        } else {
          n := n + 1;
        }
        i := i + 1;
        assert Bare(dirPath) ==> dirTable == old(dirTable)[dirPath := pendingList[..i]];
      }
      assert pendingList[..|pendingList|] == pendingList;
    }

    /** Nothing exists directly below dir. */
    ghost predicate Bare(dir: Path)
      reads kernel
    {
      forall c :: dir + [c] !in kernel.files
    }

    /** The call owed for a creation that has just happened. */
    ghost function Owed(created: Option<Path>): seq<Report>
      reads this, kernel
    {
      if created.Some? && created.value in targets
      then [Report(created.value, targets <= kernel.files && lost == {})] else []
    }

    /**
      The directory filePath, which has just been taken off its own directory's list, has a list itself: those who wait
      for it move down to it.
    */
    method MoveDown(filePath: Path, nwatch: nat, ghost before: set<Path>, ghost dirs: DirTable, ghost wds: WdTable,
                    ghost wd: int)
      returns (n: nat)
      requires Synced() && Exact(dirs, wds, targets, lost, before)
      requires wd in wds && filePath != [] && wds[wd] == Parent(filePath) && Awaits(dirs, filePath)
      requires filePath !in before && kernel.files == before + {filePath}
      requires dirTable == DropName(dirs, Parent(filePath), Base(filePath)) && filePath in dirTable
      requires wdTable == DropWatch(dirs, wds, wd, Base(filePath))
      modifies this`dirTable, this`wdTable, this`log, kernel
      ensures kernel.files == old(kernel.files) && Serves(kernel.files) && Quiet(kernel.queue)
      ensures n != 0 && wdTable != map[] && log == old(log) && filePath !in targets
    {
      hide Means, Listed;
      var pendingList := dirTable[filePath];
      dirTable := dirTable - {filePath};
      PendingList(dirs, wds, targets, lost, before, filePath);
      ChildrenMissing(before, filePath);
      n := Reattach(filePath, pendingList, nwatch);
      WatchThere(DropWatch(dirs, wds, wd, Base(filePath)), wdTable, filePath);
      assert dirTable == DropName(dirs, Parent(filePath), Base(filePath));
      Creating(dirs, wds, wdTable, targets, lost, before, wd, filePath);
    }

    /** The body of the read loop: `name` was created in the directory watched as `wd`. */
    method HandleCreated(wd: int, name: Name, nwatch: nat, ghost before: set<Path>, ghost path: Path) returns (n: nat)
      requires Serves(before) && wd in wdTable && nwatch == |wdTable| && Quiet(kernel.queue)
      requires path != [] && Parent(path) == wdTable[wd] && Base(path) == name
      requires path !in before && kernel.files == before + {path}
      modifies this`dirTable, this`wdTable, this`log, kernel
      ensures kernel.files == old(kernel.files) && Serves(kernel.files) && Quiet(kernel.queue)
      ensures n == 0 <==> wdTable == map[]
      ensures log == old(log) + Owed(Some(path))
    {
      hide Means, Listed;
      ghost var dirs, wds := dirTable, wdTable;
      var dir := wdTable[wd];
      var filePath := dir + [name];
      assert filePath == path;
      n := nwatch;
      if name !in dirTable[dir] {
        NotAwaited(dirTable, wdTable, targets, lost, before, filePath);
        return;
      }
      n := TakeOff(wd, name, nwatch);
      assert filePath != dir;
      if filePath in dirTable {
        n := MoveDown(filePath, n, before, dirs, wds, wd);
      } else {
        Creating(dirs, wds, wdTable, targets, lost, before, wd, filePath);
        NoWatchLeft(dirTable, wdTable, targets, lost, kernel.files);
        log := log + [Report(filePath, n == 0)];
      }
    }

    /** The descriptor has become readable: `created` has appeared, or there are leftovers of removed watches only. */
    method Callback(ghost before: set<Path>, ghost created: Option<Path>) returns (keep: bool)
      requires Serves(before) && Readable(before, created)
      modifies this`dirTable, this`wdTable, this`log, kernel
      ensures kernel.files == old(kernel.files) && Serves(kernel.files) && Quiet(kernel.queue)
      ensures keep <==> wdTable != map[]
      ensures keep ==> kernel.queue == []
      ensures log == old(log) + Owed(created)
    {
      hide Means, Listed;
      var nwatch := |wdTable|;
      ghost var waiting := created.Some?;
      while nwatch != 0
        invariant kernel.files == old(kernel.files)
        invariant waiting ==> Serves(before) && Readable(before, created) && created.Some?
        invariant waiting ==> log == old(log) && nwatch == |wdTable|
        invariant !waiting ==> Serves(kernel.files) && Quiet(kernel.queue) && log == old(log) + Owed(created)
        invariant nwatch == 0 <==> wdTable == map[]
        decreases Weight(kernel.queue)
      {
        var event := kernel.Read();
        if event.None? {
          break;
        }
        if event.value.wd !in wdTable {
          continue;
        }
        nwatch := HandleCreated(event.value.wd, event.value.name, nwatch, before, created.value);
        waiting := false;
      }
      keep := nwatch != 0;
    }

    /** What makes the descriptor readable: one record announces a creation, or only leftovers are queued. */
    ghost predicate Readable(before: set<Path>, created: Option<Path>)
      reads this, kernel
    {
      match created
      case None => Quiet(kernel.queue) && kernel.files == before
      case Some(path) =>
        && path != [] && path !in before && kernel.files == before + {path}
        && |kernel.queue| == 1
        && kernel.queue[0].Created? && kernel.queue[0].name == Base(path)
        && kernel.queue[0].wd in wdTable && wdTable[kernel.queue[0].wd] == Parent(path)
    }

    /** tlm_utils_watch_for_files: whether a source has been set up. */
    method WatchForFiles(watchList: seq<Path>) returns (watching: bool)
      requires Serves(kernel.files) && targets == {} && lost == {} && log == [] && kernel.queue == []
      requires Antichain(watchList)
      modifies this, kernel
      ensures kernel.files == old(kernel.files) && Serves(kernel.files) && Quiet(kernel.queue)
      ensures targets == ToSet(watchList) && lost == Lost(kernel.files, watchList)
      ensures log == Registered(kernel.files, watchList, |watchList|)
      ensures watching <==> !(targets <= kernel.files)
    {
      var nwatch, i := 0, 0;
      while i < |watchList|
        invariant 0 <= i <= |watchList| && kernel.files == old(kernel.files) && Quiet(kernel.queue)
        invariant Serves(kernel.files) && Covers(watchList, i)
        invariant log == Registered(kernel.files, watchList, i)
        invariant 0 <= nwatch && (nwatch == 0 <==> targets <= kernel.files)
      {
        nwatch := WatchForFile(watchList, i, nwatch);
        i := i + 1;
      }
      assert watchList[..|watchList|] == watchList;
      watching := nwatch != 0;
    }

    /** The first n targets have been registered. */
    ghost predicate Covers(watchList: seq<Path>, n: nat)
      requires Antichain(watchList) && n <= |watchList|
      reads this, kernel
    {
      targets == ToSet(watchList[..n]) && lost == LostBefore(kernel.files, watchList, n)
    }

    /** The body of the registration loop. */
    method WatchForFile(watchList: seq<Path>, i: nat, nwatch: nat) returns (n: nat)
      requires Antichain(watchList) && i < |watchList| && Quiet(kernel.queue)
      requires Serves(kernel.files) && Covers(watchList, i)
      requires log == Registered(kernel.files, watchList, i)
      requires nwatch == 0 <==> targets <= kernel.files
      modifies this, kernel
      ensures kernel.files == old(kernel.files) && Serves(kernel.files) && Quiet(kernel.queue)
      ensures Covers(watchList, i + 1)
      ensures log == Registered(kernel.files, watchList, i + 1)
      ensures n == 0 <==> targets <= kernel.files
    {
      hide Means, Listed, Swallowed, SetAntichain;
      var path := watchList[i];
      ghost var dirs, wds := dirTable, wdTable;
      n := nwatch;
      var res := AddWatch(path);
      RegisterStep(dirs, wds, dirTable, wdTable, res.WatchReady?, watchList, i, kernel.files);
      OneMoreTarget(kernel.files, watchList, i);
      NotReadyMissing(kernel.files, watchList, i);
      if res.WatchReady? {
        log := log + [Report(path, n == 0 && i + 1 == |watchList|)];
        assert watchList[..|watchList|] == watchList;
      } else {
        n := n + 1;
      }
      targets, lost := ToSet(watchList[..i + 1]), LostBefore(kernel.files, watchList, i + 1);
    }

    /** A node is created; if that concerns the descriptor, its callback runs. */
    method Happen(path: Path, watching: bool) returns (still: bool)
      requires Serves(kernel.files) && Quiet(kernel.queue)
      requires path != [] && Parent(path) in kernel.files && path !in kernel.files
      requires watching <==> wdTable != map[]
      requires watching ==> kernel.queue == []
      modifies this`dirTable, this`wdTable, this`log, kernel
      ensures kernel.files == old(kernel.files) + {path} && Serves(kernel.files) && Quiet(kernel.queue)
      ensures still <==> wdTable != map[]
      ensures still ==> kernel.queue == []
      ensures log == old(log) + Owed(Some(path))
    {
      ghost var before := kernel.files;
      still := watching;
      kernel.Create(path);
      if watching && kernel.queue != [] {
        still := Callback(before, Some(path));
      } else {
        NotAwaited(dirTable, wdTable, targets, lost, before, path);
      }
    }

    /** Creations, one after the other. */
    method HappenAll(creations: seq<Path>, watching: bool) returns (still: bool)
      requires Serves(kernel.files) && Quiet(kernel.queue) && Run(kernel.files, creations)
      requires watching <==> wdTable != map[]
      requires watching ==> kernel.queue == []
      modifies this`dirTable, this`wdTable, this`log, kernel
      ensures kernel.files == After(old(kernel.files), creations) && Serves(kernel.files)
      ensures still <==> wdTable != map[]
      ensures log == old(log) + Delivered(targets, lost, old(kernel.files), creations)
    {
      still := watching;
      ghost var start := kernel.files;
      var i := 0;
      while i < |creations|
        invariant 0 <= i <= |creations|
        invariant Serves(kernel.files) && Quiet(kernel.queue)
        invariant still <==> wdTable != map[]
        invariant still ==> kernel.queue == []
        invariant Run(kernel.files, creations[i..])
        invariant After(kernel.files, creations[i..]) == After(start, creations)
        invariant log + Delivered(targets, lost, kernel.files, creations[i..]) ==
                  old(log) + Delivered(targets, lost, start, creations)
      {
        assert creations[i..][0] == creations[i] && creations[i..][1..] == creations[i + 1..];
        ghost var said, now := log, kernel.files;
        still := Happen(creations[i], still);
        assert log + Delivered(targets, lost, kernel.files, creations[i + 1..]) ==
               said + Delivered(targets, lost, now, creations[i..]);
        i := i + 1;
      }
    }
  }

  /**
    A whole run: the targets are registered, then nodes are created one after the other, each followed by its callback.
    What the index computes is what the simple description of the run says.
  */
  method Watch(files: set<Path>, targets: seq<Path>, creations: seq<Path>) returns (log: seq<Report>, watching: bool)
    requires Tree(files) && Antichain(targets) && Run(files, creations)
    ensures log == Expected(files, targets, creations)
    ensures watching <==> !(ToSet(targets) <= After(files, creations) && Lost(files, targets) == {})
  {
    hide Exact, Swallowed, Antichain, Registered;
    var kernel := new Kernel(files);
    var info := new WatchInfo(kernel);
    watching := info.WatchForFiles(targets);
    if watching {
      watching := info.Callback(files, None);
    } else {
      LostNeedsMissing(files, targets);
      NoWatchLeft(info.dirTable, info.wdTable, info.targets, info.lost, kernel.files);
    }
    watching := info.HappenAll(creations, watching);
    log := info.log;
    NoWatchLeft(info.dirTable, info.wdTable, info.targets, info.lost, kernel.files);
  }
}
