/**
  The simple thing the watcher's index stands for: a set of targets, those of them that do not exist yet, and the
  reports owed for a run of the file system.
*/
module WatchSpec {
  import opened Paths

  datatype Report = Report(path: Path, isFinal: bool)

  ghost predicate AtOrAbove(p: Path, q: Path) {
    p <= q
  }

  /** The targets are pairwise distinct and none lies below another. */
  ghost predicate Antichain(targets: seq<Path>) {
    && (forall i :: 0 <= i < |targets| ==> targets[i] != [])
    && (forall i, j {:trigger AtOrAbove(targets[i], targets[j])} ::
          0 <= i < |targets| && 0 <= j < |targets| && AtOrAbove(targets[i], targets[j]) ==> i == j)
  }

  ghost predicate SetAntichain(targets: set<Path>) {
    && [] !in targets
    && forall t, u {:trigger AtOrAbove(t, u)} :: t in targets && u in targets && AtOrAbove(t, u) ==> t == u
  }

  /** p is a missing target or a missing directory on the way to one. */
  ghost predicate Needed(targets: set<Path>, files: set<Path>, p: Path) {
    p != [] && p !in files && exists t {:trigger AtOrAbove(p, t)} :: t in targets && AtOrAbove(p, t)
  }

  /**
    Target i exists at registration but is never reported: an earlier, missing target is awaited in its directory,
    so it is put on that directory's list without a look at the file system.
  */
  ghost predicate Swallowed(files: set<Path>, targets: seq<Path>, i: nat)
    requires i < |targets| && Antichain(targets)
  {
    && targets[i] in files
    && exists j :: 0 <= j < i && WaitsIn(files, targets[j], Parent(targets[i]))
  }

  /** t is missing and dir is its deepest existing ancestor. */
  ghost predicate WaitsIn(files: set<Path>, t: Path, dir: Path) {
    t !in files && dir in files && |dir| < |t| && t[..|dir|] == dir && t[..|dir| + 1] !in files
  }

  /** The swallowed targets among the first n. */
  ghost function LostBefore(files: set<Path>, targets: seq<Path>, n: nat): set<Path>
    requires Antichain(targets) && n <= |targets|
  {
    set i | 0 <= i < n && Swallowed(files, targets, i) :: targets[i]
  }

  ghost function Lost(files: set<Path>, targets: seq<Path>): set<Path>
    requires Antichain(targets)
  {
    LostBefore(files, targets, |targets|)
  }

  ghost function ToSet(targets: seq<Path>): set<Path> {
    set t | t in targets
  }

  /** Reports made while registering the first n targets. */
  ghost function Registered(files: set<Path>, targets: seq<Path>, n: nat): seq<Report>
    requires n <= |targets| && Antichain(targets)
  {
    if n == 0 then [] else
    Registered(files, targets, n - 1) +
    if targets[n - 1] in files && !Swallowed(files, targets, n - 1)
    then [Report(targets[n - 1], n == |targets| && ToSet(targets) <= files)] else []
  }

  /** A run of the environment: each node is created in an existing directory, and nothing is created twice. */
  ghost predicate Run(files: set<Path>, creations: seq<Path>)
    decreases |creations|
  {
    creations != [] ==>
      && creations[0] != [] && Parent(creations[0]) in files && creations[0] !in files
      && Run(files + {creations[0]}, creations[1..])
  }

  ghost function After(files: set<Path>, creations: seq<Path>): set<Path>
    decreases |creations|
  {
    if creations == [] then files else After(files + {creations[0]}, creations[1..])
  }

  /** Reports made for the creations of a run. */
  ghost function Delivered(targets: set<Path>, lost: set<Path>, files: set<Path>, creations: seq<Path>): seq<Report>
    decreases |creations|
  {
    if creations == [] then [] else
    var now := files + {creations[0]};
    (if creations[0] in targets then [Report(creations[0], targets <= now && lost == {})] else []) +
    Delivered(targets, lost, now, creations[1..])
  }

  /** Everything the watcher reports. */
  ghost function Expected(files: set<Path>, targets: seq<Path>, creations: seq<Path>): seq<Report>
    requires Antichain(targets)
  {
    Registered(files, targets, |targets|) + Delivered(ToSet(targets), Lost(files, targets), files, creations)
  }

  function ReportedPaths(log: seq<Report>): set<Path> {
    set r | r in log :: r.path
  }
}
