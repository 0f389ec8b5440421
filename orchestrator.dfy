/** The driver `process_all_directories` (project_analyzer.py:244-268): it
    collects every directory `os.walk` yields except those whose path
    contains `node_modules`, then runs the per-directory pipeline on each.
    The walk is given as its sequence of visited directories, each with its
    listing and the client's attempt scripts for that directory. */
module Orchestrator {
  import opened Config
  import opened Strings
  import opened Validation
  import opened Paths
  import opened Client
  import opened Directory

  /** One directory yielded by `os.walk`: its path, what `os.listdir`
      returns for it, and the attempt scripts of its client calls. */
  datatype WalkedDir = WalkedDir(root: string, listing: seq<Entry>, apis: seq<Script>)

  /** The marker whose presence anywhere in a path drops that directory. */
  const NODE_MODULES: string := "node_modules"

  /** A walked directory is queued unless `'node_modules' in root`. */
  predicate Kept(w: WalkedDir) {
    !Contains(w.root, NODE_MODULES)
  }

  /** `dirs_to_process`: the kept directories in walk order. */
  function KeptDirs(walk: seq<WalkedDir>): seq<WalkedDir>
    decreases |walk|
  {
    if walk == [] then []
    else
      var last := walk[|walk| - 1];
      KeptDirs(walk[..|walk| - 1]) + (if Kept(last) then [last] else [])
  }

  /** Every walked directory has enough attempt scripts. */
  predicate AllSupplied(walk: seq<WalkedDir>) {
    forall i :: 0 <= i < |walk| ==> Supplied(walk[i].apis)
  }

  /** What the pipeline does for each of `dirs`, in order. */
  function Outcomes(dirs: seq<WalkedDir>): (results: seq<DirResult>)
    requires AllSupplied(dirs)
    ensures |results| == |dirs|
    decreases |dirs|
  {
    if dirs == [] then []
    else
      var last := dirs[|dirs| - 1];
      Outcomes(dirs[..|dirs| - 1]) + [DirectorySpec(last.root, last.listing, Runs(last.apis), VerifyMarkdown)]
  }

  /** `gather` passes on the exception of any directory's pipeline, so
      the whole run ends with an exception exactly when some directory's
      run aborts. */
  predicate Aborts(results: seq<DirResult>) {
    exists i :: 0 <= i < |results| && results[i].status == Aborted
  }

  /** One more result aborts the run exactly when the run so far or that
      result aborts. */
  lemma AbortsSnoc(results: seq<DirResult>, r: DirResult)
    ensures Aborts(results + [r]) <==> Aborts(results) || r.status == Aborted
  {
    var all := results + [r];
    assert all[|results|] == r;
    if Aborts(results) {
      var i :| 0 <= i < |results| && results[i].status == Aborted;
      assert all[i] == results[i];
    }
    if Aborts(all) {
      var i :| 0 <= i < |all| && all[i].status == Aborted;
      if i < |results| {
        assert all[i] == results[i];
      }
    }
  }

  /** The collection loop over the walk. */
  method CollectDirectories(walk: seq<WalkedDir>) returns (dirs: seq<WalkedDir>)
    ensures dirs == KeptDirs(walk)
  {
    dirs := [];
    for i := 0 to |walk|
      invariant dirs == KeptDirs(walk[..i])
    {
      assert walk[..i + 1][..i] == walk[..i];
      if Contains(walk[i].root, NODE_MODULES) {
        continue;
      }
      dirs := dirs + [walk[i]];
    }
    assert walk[..|walk|] == walk;
  }

  /** `process_all_directories`: collect, then run the pipeline once per
      collected directory, and report whether the run ends with an
      exception. The source runs these runs concurrently; each depends only
      on its own directory, so running them in order gives the same results. */
  method ProcessAllDirectories(walk: seq<WalkedDir>)
    returns (dirs: seq<WalkedDir>, results: seq<DirResult>, aborted: bool)
    requires AllSupplied(walk)
    ensures dirs == KeptDirs(walk)
    ensures AllSupplied(dirs) && results == Outcomes(dirs)
    ensures aborted <==> exists i :: 0 <= i < |results| && results[i].status == Aborted
  {
    dirs := CollectDirectories(walk);
    KeptSupplied(walk);
    results := [];
    aborted := false;
    for i := 0 to |dirs|
      invariant results == Outcomes(dirs[..i])
      invariant aborted <==> Aborts(results)
    {
      assert dirs[..i + 1][..i] == dirs[..i];
      var r := AnalyzeSingleDirectory(dirs[i].root, dirs[i].listing, dirs[i].apis);
      AbortsSnoc(results, r);
      results := results + [r];
      aborted := aborted || r.status == Aborted;
    }
    assert dirs[..|dirs|] == dirs;
  }

  /** Collection keeps exactly the walked directories whose path does not
      contain `node_modules`. */
  lemma {:induction false} KeptMembers(walk: seq<WalkedDir>)
    ensures forall w :: w in KeptDirs(walk) <==> w in walk && Kept(w)
    decreases |walk|
  {
    if walk != [] {
      var init := walk[..|walk| - 1];
      KeptMembers(init);
      assert walk == init + [walk[|walk| - 1]];
    }
  }

  /** Collection keeps walk order: filtering two stretches of a walk is
      filtering each in turn. */
  lemma {:induction false} KeptAppend(w1: seq<WalkedDir>, w2: seq<WalkedDir>)
    ensures KeptDirs(w1 + w2) == KeptDirs(w1) + KeptDirs(w2)
    decreases |w2|
  {
    if w2 == [] {
      assert w1 + w2 == w1;
    } else {
      var init := w2[..|w2| - 1];
      KeptAppend(w1, init);
      assert (w1 + w2)[..|w1 + w2| - 1] == w1 + init;
    }
  }

  /** A kept directory has a place among the collected ones. */
  lemma {:induction false} KeptPosition(walk: seq<WalkedDir>, i: nat) returns (j: nat)
    requires i < |walk| && Kept(walk[i])
    ensures j < |KeptDirs(walk)| && KeptDirs(walk)[j] == walk[i]
    decreases |walk|
  {
    var init := walk[..|walk| - 1];
    if i == |walk| - 1 {
      j := |KeptDirs(init)|;
    } else {
      assert walk[i] == init[i];
      j := KeptPosition(init, i);
    }
  }

  /** The kept directories still have their attempt scripts. */
  lemma KeptSupplied(walk: seq<WalkedDir>)
    requires AllSupplied(walk)
    ensures AllSupplied(KeptDirs(walk))
  {
    KeptMembers(walk);
    var kept := KeptDirs(walk);
    forall i | 0 <= i < |kept| ensures Supplied(kept[i].apis) {
      assert kept[i] in walk;
      var j :| 0 <= j < |walk| && walk[j] == kept[i];
    }
  }

  /** The result for each collected directory is the pipeline's result for it. */
  lemma {:induction false} OutcomeOfEach(dirs: seq<WalkedDir>, i: nat)
    requires AllSupplied(dirs) && i < |dirs|
    ensures Outcomes(dirs)[i] == DirectorySpec(dirs[i].root, dirs[i].listing, Runs(dirs[i].apis), VerifyMarkdown)
    decreases |dirs|
  {
    var init := dirs[..|dirs| - 1];
    if i < |init| {
      OutcomeOfEach(init, i);
      assert dirs[i] == init[i];
    }
  }

  /** Any path holding `node_modules` is dropped, also where it is only
      part of a longer name: the test is a substring test. */
  lemma NodeModulesDropped(w: WalkedDir, prefix: string, suffix: string)
    requires w.root == prefix + NODE_MODULES + suffix
    ensures !Kept(w) && KeptDirs([w]) == []
  {
    ContainsItself(NODE_MODULES);
    ContainsInInfix(prefix, NODE_MODULES, suffix, NODE_MODULES);
    assert [w][..0] == [];
  }

  /** The walk filter and the pipeline's own skip test are different: a
      `venv` directory is collected, and the pipeline then returns at once. */
  lemma VenvCollectedThenSkipped(listing: seq<Entry>, apis: seq<Script>)
    requires Supplied(apis)
    ensures var w := WalkedDir("x/venv", listing, apis);
      && KeptDirs([w]) == [w]
      && Outcomes([w]) == [DirResult(SkippedDirectory, None, "", 0, 0, [])]
  {
    var w := WalkedDir("x/venv", listing, apis);
    assert !Contains("x/venv", NODE_MODULES);
    assert [w][..0] == [];
    ShouldSkipExamples();
  }

  /** One aborted directory aborts the whole run. */
  lemma AbortedDirectoryAbortsRun(dirs: seq<WalkedDir>, j: nat)
    requires AllSupplied(dirs) && j < |dirs|
    requires DirectorySpec(dirs[j].root, dirs[j].listing, Runs(dirs[j].apis), VerifyMarkdown).status == Aborted
    ensures Aborts(Outcomes(dirs))
  {
    OutcomeOfEach(dirs, j);
  }

  /** So one collected directory whose first request gets a 200 with a
      content without a length aborts the whole run. */
  lemma UnsizedContentAbortsRun(walk: seq<WalkedDir>, i: nat)
    requires AllSupplied(walk) && i < |walk| && Kept(walk[i])
    requires !ShouldSkipDirectory(walk[i].root) && Eligible(walk[i].root, walk[i].listing) != []
    requires Rebinds(walk[i].apis[0](0))
    ensures AllSupplied(KeptDirs(walk)) && Aborts(Outcomes(KeptDirs(walk)))
  {
    var w, dirs := walk[i], KeptDirs(walk);
    UnsizedContentAborts(w.root, w.listing, w.apis);
    KeptSupplied(walk);
    var j := KeptPosition(walk, i);
    AbortedDirectoryAbortsRun(dirs, j);
  }
}
