/**
  What the watcher's reports promise its user, for every run: who is reported, when, how often, and which report says
  it is the last one.
*/
module WatchDelivery {
  import opened Paths
  import opened Inotify
  import opened WatchSpec
  import opened WatchIndex

  // ----- Runs -----

  lemma {:induction false} AfterRun(files: set<Path>, creations: seq<Path>)
    requires Tree(files) && Run(files, creations)
    ensures files <= After(files, creations) && Tree(After(files, creations))
    decreases |creations|
  {
    if creations != [] {
      AfterRun(files + {creations[0]}, creations[1..]);
    }
  }

  ghost predicate NoRepeats(log: seq<Report>) {
    forall i, j :: 0 <= i < j < |log| ==> log[i].path != log[j].path
  }

  /** Only the last report may be final, and it is exactly when `all` holds. */
  ghost predicate FinalIff(log: seq<Report>, all: bool) {
    forall k :: 0 <= k < |log| ==> (log[k].isFinal <==> k == |log| - 1 && all)
  }

  lemma ReportsAppended(log: seq<Report>, more: seq<Report>)
    requires NoRepeats(log) && NoRepeats(more) && ReportedPaths(log) !! ReportedPaths(more)
    ensures NoRepeats(log + more)
    ensures ReportedPaths(log + more) == ReportedPaths(log) + ReportedPaths(more)
  {
    forall i, j | 0 <= i < j < |log + more| ensures (log + more)[i].path != (log + more)[j].path {
      assert i < |log| ==> log[i].path in ReportedPaths(log);
      assert |log| <= j ==> more[j - |log|].path in ReportedPaths(more);
    }
    forall p | p in ReportedPaths(log) + ReportedPaths(more) ensures p in ReportedPaths(log + more) {
      if p in ReportedPaths(log) {
        var r :| r in log && r.path == p;
        assert r in log + more;
      } else {
        var r :| r in more && r.path == p;
        assert r in log + more;
      }
    }
  }

  // ----- Registration -----

  /** The targets among the first n that are reported at registration. */
  ghost function Ready(files: set<Path>, targets: seq<Path>, n: nat): set<Path>
    requires Antichain(targets) && n <= |targets|
  {
    ToSet(targets[..n]) * files - LostBefore(files, targets, n)
  }

  lemma OneMoreReady(files: set<Path>, targets: seq<Path>, n: nat)
    requires Antichain(targets) && n < |targets|
    ensures targets[n] !in Ready(files, targets, n)
    ensures Ready(files, targets, n + 1) ==
            Ready(files, targets, n) + if targets[n] in files && !Swallowed(files, targets, n) then {targets[n]} else {}
  {
    hide Swallowed;
    OneMoreTarget(files, targets, n);
    assert LostBefore(files, targets, n) <= ToSet(targets[..n]);
    assert Swallowed(files, targets, n) ==> targets[n] in files by {
      SwallowedExists(files, targets, n);
    }
  }

  lemma SwallowedExists(files: set<Path>, targets: seq<Path>, i: nat)
    requires Antichain(targets) && i < |targets|
    ensures Swallowed(files, targets, i) ==> targets[i] in files
  {
  }

  lemma OneReport(r: Report)
    ensures NoRepeats([r]) && ReportedPaths([r]) == {r.path}
  {
    assert r in [r];
  }

  /** The existing targets among the first n are reported, each once, except the lost ones. */
  lemma {:induction false} RegisteredPaths(files: set<Path>, targets: seq<Path>, n: nat)
    requires Antichain(targets) && n <= |targets|
    ensures NoRepeats(Registered(files, targets, n))
    ensures ReportedPaths(Registered(files, targets, n)) == Ready(files, targets, n)
  {
    if n > 0 {
      hide NoRepeats, Ready, Swallowed, ReportedPaths, Antichain;
      var before, r := Registered(files, targets, n - 1), Report(targets[n - 1], n == |targets| && ToSet(targets) <= files);
      RegisteredPaths(files, targets, n - 1);
      OneMoreReady(files, targets, n - 1);
      if targets[n - 1] in files && !Swallowed(files, targets, n - 1) {
        OneReport(r);
        ReportsAppended(before, [r]);
      } else {
        assert Registered(files, targets, n) == before;
      }
    }
  }

  lemma {:induction false} RegisteredFinal(files: set<Path>, targets: seq<Path>, n: nat)
    requires Antichain(targets) && n <= |targets|
    ensures FinalIff(Registered(files, targets, n), n == |targets| && ToSet(targets) <= files)
  {
    if n > 0 {
      RegisteredFinal(files, targets, n - 1);
      if n == |targets| && ToSet(targets) <= files {
        LostNeedsMissing(files, targets);
        assert targets[n - 1] in ToSet(targets);
        if Swallowed(files, targets, n - 1) {
          assert targets[n - 1] in Lost(files, targets);
        }
      }
    }
  }

  // ----- Creations -----

  /** The targets created during the run are reported, each once, in the order of their creation. */
  lemma {:induction false} DeliveredPaths(targets: set<Path>, lost: set<Path>, files: set<Path>, creations: seq<Path>)
    requires Tree(files) && Run(files, creations)
    ensures NoRepeats(Delivered(targets, lost, files, creations))
    ensures ReportedPaths(Delivered(targets, lost, files, creations)) == targets * (After(files, creations) - files)
    decreases |creations|
  {
    if creations != [] {
      var now, p := files + {creations[0]}, creations[0];
      var more := if p in targets then [Report(p, targets <= now && lost == {})] else [];
      DeliveredPaths(targets, lost, now, creations[1..]);
      AfterRun(now, creations[1..]);
      assert ReportedPaths(more) == if p in targets then {p} else {};
      ReportsAppended(more, Delivered(targets, lost, now, creations[1..]));
    }
  }

  lemma {:induction false} DeliveredNothing(targets: set<Path>, lost: set<Path>, files: set<Path>, creations: seq<Path>)
    requires Run(files, creations) && targets <= files
    ensures Delivered(targets, lost, files, creations) == []
    decreases |creations|
  {
    if creations != [] {
      DeliveredNothing(targets, lost, files + {creations[0]}, creations[1..]);
    }
  }

  lemma {:induction false} DeliveredFinal(targets: set<Path>, lost: set<Path>, files: set<Path>, creations: seq<Path>)
    requires Tree(files) && Run(files, creations)
    ensures FinalIff(Delivered(targets, lost, files, creations), targets <= After(files, creations) && lost == {})
    decreases |creations|
  {
    if creations != [] {
      var now, p, rest := files + {creations[0]}, creations[0], creations[1..];
      var tail := Delivered(targets, lost, now, rest);
      DeliveredFinal(targets, lost, now, rest);
      AfterRun(now, rest);
      if targets <= now {
        DeliveredNothing(targets, lost, now, rest);
      } else if tail == [] && targets <= After(now, rest) {
        var t :| t in targets && t !in now;
        DeliveredPaths(targets, lost, now, rest);
        assert t in ReportedPaths(tail);
      }
    }
  }

  // ----- The promises -----

  /** At the end of every run exactly the targets that exist have been reported, once each, less the lost ones. */
  lemma ReportedExactlyOnce(files: set<Path>, targets: seq<Path>, creations: seq<Path>)
    requires Tree(files) && Antichain(targets) && Run(files, creations)
    ensures var log := Expected(files, targets, creations);
            && NoRepeats(log)
            && ReportedPaths(log) == ToSet(targets) * After(files, creations) - Lost(files, targets)
  {
    var T := ToSet(targets);
    assert targets[..|targets|] == targets;
    RegisteredPaths(files, targets, |targets|);
    DeliveredPaths(T, Lost(files, targets), files, creations);
    AfterRun(files, creations);
    LostExist(files, targets);
    ReportsAppended(Registered(files, targets, |targets|), Delivered(T, Lost(files, targets), files, creations));
  }

  lemma LostExist(files: set<Path>, targets: seq<Path>)
    requires Antichain(targets)
    ensures Lost(files, targets) <= files && Lost(files, targets) <= ToSet(targets)
  {
  }

  /** Longer runs only add reports: with the lemma above, no target is reported before it exists. */
  lemma {:induction false} ReportsGrow(targets: set<Path>, lost: set<Path>, files: set<Path>, creations: seq<Path>, k: nat)
    requires k <= |creations|
    ensures Delivered(targets, lost, files, creations[..k]) <= Delivered(targets, lost, files, creations)
    decreases k
  {
    if k > 0 {
      assert creations[..k][0] == creations[0] && creations[..k][1..] == creations[1..][..k - 1];
      ReportsGrow(targets, lost, files + {creations[0]}, creations[1..], k - 1);
    }
  }

  lemma ReportedOnlyWhenExisting(files: set<Path>, targets: seq<Path>, creations: seq<Path>, k: nat)
    requires Tree(files) && Antichain(targets) && Run(files, creations) && k <= |creations|
    ensures Expected(files, targets, creations[..k]) <= Expected(files, targets, creations)
    ensures Run(files, creations[..k])
    ensures ReportedPaths(Expected(files, targets, creations[..k])) ==
            ToSet(targets) * After(files, creations[..k]) - Lost(files, targets)
  {
    ReportsGrow(ToSet(targets), Lost(files, targets), files, creations, k);
    RunPrefix(files, creations, k);
    ReportedExactlyOnce(files, targets, creations[..k]);
  }

  lemma {:induction false} RunPrefix(files: set<Path>, creations: seq<Path>, k: nat)
    requires Run(files, creations) && k <= |creations|
    ensures Run(files, creations[..k])
    decreases k
  {
    if k > 0 {
      assert creations[..k][1..] == creations[1..][..k - 1];
      RunPrefix(files + {creations[0]}, creations[1..], k - 1);
    }
  }

  /** A report is final exactly when it is the last one, every target exists, and none was lost. */
  lemma FinalExactlyLast(files: set<Path>, targets: seq<Path>, creations: seq<Path>)
    requires Tree(files) && Antichain(targets) && Run(files, creations)
    ensures FinalIff(Expected(files, targets, creations),
                     ToSet(targets) <= After(files, creations) && Lost(files, targets) == {})
  {
    var T, lost := ToSet(targets), Lost(files, targets);
    RegisteredFinal(files, targets, |targets|);
    DeliveredFinal(T, lost, files, creations);
    AfterRun(files, creations);
    if T <= files {
      LostNeedsMissing(files, targets);
      DeliveredNothing(T, lost, files, creations);
    } else if T <= After(files, creations) {
      var t :| t in T && t !in files;
      DeliveredPaths(T, lost, files, creations);
      assert t in ReportedPaths(Delivered(T, lost, files, creations));
    }
  }

  /**
    In a run that makes every target appear, every target is reported if and only if no target that exists at
    registration is listed after a missing one that waits in its directory.
  */
  lemma CompleteIff(files: set<Path>, targets: seq<Path>, creations: seq<Path>)
    requires Tree(files) && Antichain(targets) && Run(files, creations)
    requires ToSet(targets) <= After(files, creations)
    ensures ReportedPaths(Expected(files, targets, creations)) == ToSet(targets) <==>
            forall i, j :: 0 <= j < i < |targets| && targets[i] in files ==> !WaitsIn(files, targets[j], Parent(targets[i]))
  {
    ReportedExactlyOnce(files, targets, creations);
    LostExist(files, targets);
    if Lost(files, targets) == {} {
      forall i, j | 0 <= j < i < |targets| && targets[i] in files ensures !WaitsIn(files, targets[j], Parent(targets[i])) {
        if WaitsIn(files, targets[j], Parent(targets[i])) {
          assert Swallowed(files, targets, i);
        }
      }
    }
  }

  /** It happens: with /b missing and /a present, asking for /b and /a loses /a for ever. */
  lemma SwallowedExample(creations: seq<Path>)
    requires Run({[], ["a"]}, creations)
    ensures Antichain([["b"], ["a"]]) && Tree({[], ["a"]})
    ensures ["a"] !in ReportedPaths(Expected({[], ["a"]}, [["b"], ["a"]], creations))
  {
    var files, targets: seq<Path> := {[], ["a"]}, [["b"], ["a"]];
    assert ["b"][0] != ["a"][0];
    assert Tree(files) by {
      assert Parent(["a"]) == [];
    }
    assert WaitsIn(files, targets[0], Parent(targets[1])) by {
      assert Parent(["a"]) == [] && ["b"][..0] == [] && ["b"][..1] == ["b"];
    }
    assert Swallowed(files, targets, 1) && targets[1] in Lost(files, targets);
    ReportedExactlyOnce(files, targets, creations);
  }

  // ----- The index -----

  /**
    The listed paths that have no list of their own are the missing targets and the lost ones, and the watched
    directories are the deepest existing directories above them.
  */
  lemma IndexIsMissingTargets(dirs: DirTable, wds: WdTable, targets: set<Path>, lost: set<Path>, files: set<Path>)
    requires Exact(dirs, wds, targets, lost, files)
    ensures forall p :: Awaits(dirs, p) && p !in dirs <==> p in lost || (p in targets && p !in files)
    ensures forall d :: Watched(wds, d) <==>
                        (exists t :: t in targets && WaitsIn(files, t, d)) || (exists l :: l in lost && Parent(l) == d)
  {
    forall p ensures Awaits(dirs, p) && p !in dirs <==> p in lost || (p in targets && p !in files) {
      LeafIsTarget(dirs, targets, lost, files, p);
    }
    forall d ensures Watched(wds, d) <==>
                     (exists t :: t in targets && WaitsIn(files, t, d)) || (exists l :: l in lost && Parent(l) == d) {
      WatchedIsDeepest(dirs, wds, targets, lost, files, d);
    }
  }

  lemma LeafIsTarget(dirs: DirTable, targets: set<Path>, lost: set<Path>, files: set<Path>, p: Path)
    requires Listed(dirs, files, {}) && Means(dirs, targets, lost, files)
    ensures Awaits(dirs, p) && p !in dirs <==> p in lost || (p in targets && p !in files)
  {
    assert AtOrAbove(p, p);
    if p in files {
      if p in lost && p in dirs {
        var q := p + [dirs[p][0]];
        assert IsChild(q, p) && Awaits(dirs, q);
        ListedBelow(targets, lost, files, p, q);
      }
    } else if Awaits(dirs, p) {
      CreatedIsTarget(dirs, targets, lost, files, p);
    }
  }

  lemma ListedBelow(targets: set<Path>, lost: set<Path>, files: set<Path>, p: Path, q: Path)
    requires SetAntichain(targets) && lost <= targets && p in targets && IsChild(q, p)
    ensures q !in lost && !Needed(targets, files, q)
  {
    assert AtOrAbove(p, q);
    forall u | AtOrAbove(q, u) ensures AtOrAbove(p, u) {
    }
  }

  lemma WatchedIsDeepest(dirs: DirTable, wds: WdTable, targets: set<Path>, lost: set<Path>, files: set<Path>, d: Path)
    requires Exact(dirs, wds, targets, lost, files)
    ensures Watched(wds, d) <==>
            (exists t :: t in targets && WaitsIn(files, t, d)) || (exists l :: l in lost && Parent(l) == d)
  {
    if d in dirs && d in files {
      var p := d + [dirs[d][0]];
      assert IsChild(p, d) && Awaits(dirs, p);
      if p !in lost {
        var t :| t in targets && AtOrAbove(p, t);
        if t in files {
          PrefixesExist(files, t, p);
        }
        assert t[..|d|] == d && t[..|d| + 1] == p;
        assert WaitsIn(files, t, d);
      }
    }
    if t :| t in targets && WaitsIn(files, t, d) {
      var p := t[..|d| + 1];
      assert AtOrAbove(p, t) && IsChild(p, d);
      assert Needed(targets, files, p) && Awaits(dirs, p);
    }
    if l :| l in lost && Parent(l) == d {
      assert Awaits(dirs, l);
      PrefixesExist(files, l, d);
    }
  }
}
