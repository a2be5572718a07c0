/**
  The environment of the watcher: the file system as seen by access(2), and one inotify descriptor.
  Watches report creations only.  Removing a watch queues an IN_IGNORED record, and one read hands over everything
  that is queued, of which the watcher looks at the first record.
*/
module Inotify {
  import opened Paths
  import opened Wrappers

  datatype Event = Created(wd: int, name: Name) | Ignored(wd: int)

  predicate Watched(watches: map<int, Path>, dir: Path) {
    exists wd :: wd in watches && watches[wd] == dir
  }

  /** Nothing but the leftovers of removed watches. */
  predicate Quiet(queue: seq<Event>) {
    forall e :: e in queue ==> e.Ignored?
  }

  ghost function Weight(queue: seq<Event>): nat {
    if Quiet(queue) then (if |queue| <= 1 then |queue| else 2) else 3
  }

  class Kernel {
    var files: set<Path>
    var watches: map<int, Path>
    var nextWd: int
    var queue: seq<Event>

    ghost predicate Valid()
      reads this
    {
      && Tree(files)
      && (forall w :: w in watches ==> w < nextWd)
      && (forall v, w :: v in watches && w in watches && watches[v] == watches[w] ==> v == w)
      && (forall e :: e in queue && e.Ignored? ==> e.wd < nextWd && e.wd !in watches)
    }

    constructor (files: set<Path>)
      requires Tree(files)
      ensures Valid() && this.files == files && watches == map[] && queue == []
    {
      this.files, watches, nextWd, queue := files, map[], 1, [];
    }

    /** inotify_add_watch: one watch descriptor per watched directory. */
    method AddWatch(dir: Path) returns (wd: int)
      requires Valid() && dir in files
      modifies this
      ensures Valid() && files == old(files) && queue == old(queue)
      ensures watches == old(watches)[wd := dir]
      ensures if Watched(old(watches), dir) then watches == old(watches) else wd !in old(watches)
    {
      if Watched(watches, dir) {
        wd :| wd in watches && watches[wd] == dir;
      } else {
        wd := nextWd;
        watches, nextWd := watches[wd := dir], nextWd + 1;
      }
    }

    /** inotify_rm_watch */
    method RemoveWatch(wd: int)
      requires Valid() && wd in watches
      modifies this
      ensures Valid() && files == old(files)
      ensures watches == old(watches) - {wd} && queue == old(queue) + [Ignored(wd)]
    {
      watches, queue := watches - {wd}, queue + [Ignored(wd)];
    }

    /** read(2) into the watcher's buffer: None when it returns no more than one bare record header. */
    method Read() returns (event: Option<Event>)
      requires Valid()
      modifies this
      ensures Valid() && files == old(files) && watches == old(watches) && queue == []
      ensures event == if old(queue) == [] || (|old(queue)| == 1 && old(queue)[0].Ignored?) then None
                       else Some(old(queue)[0])
    {
      event := if queue == [] || (|queue| == 1 && queue[0].Ignored?) then None else Some(queue[0]);
      queue := [];
    }

    /** Somebody creates a node in an existing directory. */
    method Create(p: Path)
      requires Valid() && p != [] && Parent(p) in files && p !in files
      modifies this
      ensures Valid() && files == old(files) + {p} && watches == old(watches)
      ensures !Watched(watches, Parent(p)) ==> queue == old(queue)
      ensures Watched(watches, Parent(p)) ==>
                exists wd :: wd in watches && watches[wd] == Parent(p) && queue == old(queue) + [Created(wd, Base(p))]
    {
      files := files + {p};
      if Watched(watches, Parent(p)) {
        var wd :| wd in watches && watches[wd] == Parent(p);
        queue := queue + [Created(wd, Base(p))];
      }
    }
  }
}
