/**
 The checkpoint ref: pre-existing work on the captured paths, saved as one or two
 commits on top of the captured base before the caller's own commit.
 */
module Checkpoint {
  import opened Common
  import opened Text
  import opened GitTree
  import opened GitRepository

  /** The three versions of one path at capture, and its whole index record. */
  datatype Captured = Captured(path: string, head: Option<File>, staged: Option<File>, working: Option<File>,
                               record: Option<Record>)

  datatype Manifest = Manifest(id: string, branch: string, baseHead: Commit, ownerStable: bool, paths: seq<Captured>)

  datatype Phase = StagedPhase | WorkingPhase

  function Version(e: Captured, phase: Phase): Option<File> {
    if phase.StagedPhase? then e.staged else e.working
  }

  function Prior(e: Captured, phase: Phase): Option<File> {
    if phase.StagedPhase? then e.head else e.staged
  }

  predicate Captures(entries: seq<Captured>, path: string) {
    exists i :: 0 <= i < |entries| && entries[i].path == path
  }

  /** `t` has the phase's version of every captured path. */
  ghost predicate HasVersions(t: Tree, entries: seq<Captured>, phase: Phase) {
    forall i :: 0 <= i < |entries| ==> At(t, entries[i].path) == Version(entries[i], phase)
  }

  /** Outside the captured paths nothing differs. */
  ghost predicate SameElsewhere(before: Tree, after: Tree, entries: seq<Captured>) {
    forall q :: !Captures(entries, q) ==> At(after, q) == At(before, q)
  }

  /** Some captured path has another version in this phase than before it. */
  predicate PhaseChanges(entries: seq<Captured>, phase: Phase) {
    exists i :: 0 <= i < |entries| && Version(entries[i], phase) != Prior(entries[i], phase)
  }

  /** `update-index` of a blob, which refuses to put a file where a directory is needed or the other way round. */
  function InstallVersion(t: Tree, path: string, version: Option<File>): (r: Option<Tree>)
    ensures r.Some? ==> At(r.value, path) == version && forall q :: q != path ==> At(r.value, q) == At(t, q)
    ensures r.Some? && IsTree(t) ==> IsTree(r.value)
  {
    if version.None? then Some(t - {path})
    else if version.value.mode == Gitlink then None
    else if exists q :: q in t && Conflicts(path, q) then None
    else Some(t[path := version.value])
  }

  ghost predicate DistinctPaths(entries: seq<Captured>) {
    forall i, j :: 0 <= i < j < |entries| ==> entries[i].path != entries[j].path
  }

  /** The files of the phase fit into the tree: none is a gitlink, or needs a directory where a file is. */
  ghost predicate Fits(t: Tree, entries: seq<Captured>, phase: Phase) {
    forall i :: 0 <= i < |entries| && Version(entries[i], phase).Some? ==>
      && Version(entries[i], phase).value.mode != Gitlink
      && forall q :: q in t || Captures(entries, q) ==> !Conflicts(entries[i].path, q)
  }

  /** The tree has what the captured paths had before the phase. */
  ghost predicate HasPriors(t: Tree, entries: seq<Captured>, phase: Phase) {
    forall i :: 0 <= i < |entries| ==> At(t, entries[i].path) == Prior(entries[i], phase)
  }

  /** Lists every captured path and compares its entry with the phase's version. */
  method MatchesVersions(repo: GitRepo, t: Tree, entries: seq<Captured>, phase: Phase) returns (ok: bool)
    modifies repo`failures
    ensures repo.failures >= old(repo.failures) && (ok ==> HasVersions(t, entries, phase))
    ensures !ok ==> repo.failures > old(repo.failures) || !HasVersions(t, entries, phase)
  {
    for i := 0 to |entries|
      invariant forall k :: 0 <= k < i ==> At(t, entries[k].path) == Version(entries[k], phase)
      invariant repo.failures >= old(repo.failures)
    {
      var listed := repo.Call();
      if !listed || At(t, entries[i].path) != Version(entries[i], phase) {
        return false;
      }
    }
    return true;
  }

  /** A separate worktree with its own HEAD and index. */
  class Checkout {
    var head: Commit
    var tree: Tree

    constructor (base: Commit)
      ensures head == base && tree == base.tree
    {
      head, tree := base, base.tree;
    }

    /** Installs one version where the phase changes it. */
    method InstallEntry(repo: GitRepo, e: Captured, phase: Phase) returns (ok: bool)
      requires IsTree(tree)
      modifies this`tree, repo`failures
      ensures IsTree(tree) && repo.failures >= old(repo.failures)
      ensures forall q :: q != e.path ==> At(tree, q) == At(old(tree), q)
      ensures ok && Version(e, phase) != Prior(e, phase) ==> At(tree, e.path) == Version(e, phase)
      ensures Version(e, phase) == Prior(e, phase) ==> ok && tree == old(tree)
      ensures !ok ==> tree == old(tree)
      ensures !ok && repo.failures == old(repo.failures) ==>
        Version(e, phase).Some?
        && (Version(e, phase).value.mode == Gitlink || exists q :: q in tree && Conflicts(e.path, q))
    {
      if Version(e, phase) == Prior(e, phase) {
        return true;
      }
      var fits := repo.Call();
      var installed := InstallVersion(tree, e.path, Version(e, phase));
      if !fits || installed.None? {
        return false;
      }
      tree := installed.value;
      ok := true;
    }

    /** Installs what differs in this phase. */
    method InstallPhase(repo: GitRepo, entries: seq<Captured>, phase: Phase) returns (ok: bool, changed: bool)
      requires IsTree(tree)
      modifies this`tree, repo`failures
      ensures IsTree(tree) && SameElsewhere(old(tree), tree, entries) && repo.failures >= old(repo.failures)
      ensures ok ==> (changed <==> PhaseChanges(entries, phase)) && (!changed ==> tree == old(tree))
      ensures ok && DistinctPaths(entries) && HasPriors(old(tree), entries, phase) ==> HasVersions(tree, entries, phase)
      ensures !ok ==> repo.failures > old(repo.failures) || !Fits(old(tree), entries, phase)
    {
      changed := false;
      for i := 0 to |entries|
        invariant IsTree(tree) && SameElsewhere(old(tree), tree, entries) && repo.failures >= old(repo.failures)
        invariant changed <==> exists k :: 0 <= k < i && Version(entries[k], phase) != Prior(entries[k], phase)
        invariant !changed ==> tree == old(tree)
        invariant DistinctPaths(entries) && HasPriors(old(tree), entries, phase) ==> forall k :: 0 <= k < |entries| ==>
          At(tree, entries[k].path) == if k < i then Version(entries[k], phase) else Prior(entries[k], phase)
      {
        assert Captures(entries, entries[i].path);
        ghost var before := tree;
        ok := InstallEntry(repo, entries[i], phase);
        if !ok {
          KeysWithin(old(tree), tree, entries);
          return;
        }
        changed := changed || Version(entries[i], phase) != Prior(entries[i], phase);
      }
      ok := true;
    }

    /** Installs what differs in this phase and commits it; a phase without change makes no commit. */
    method RunPhase(repo: GitRepo, entries: seq<Captured>, phase: Phase) returns (ok: bool, made: Option<Commit>)
      requires IsTree(tree)
      modifies this, repo`failures
      ensures IsTree(tree) && SameElsewhere(old(tree), tree, entries) && repo.failures >= old(repo.failures)
      ensures ok ==> (made.Some? <==> PhaseChanges(entries, phase))
      ensures ok && made.None? ==> head == old(head) && tree == old(tree)
      ensures ok && made.Some? ==> made.value == head == Commit(old(head), tree) && HasVersions(tree, entries, phase)
      ensures ok && DistinctPaths(entries) && HasPriors(old(tree), entries, phase) ==> HasVersions(tree, entries, phase)
      ensures !ok && DistinctPaths(entries) && HasPriors(old(tree), entries, phase) ==>
        repo.failures > old(repo.failures) || !Fits(old(tree), entries, phase)
    {
      made := None;
      var changed;
      ok, changed := InstallPhase(repo, entries, phase);
      if !ok || !changed {
        return;
      }
      ok := MatchesVersions(repo, tree, entries, phase);
      if !ok {
        return;
      }
      var committed := repo.Call();
      if !committed {
        return false, made;
      }
      head := Commit(head, tree);
      made := Some(head);
      var readBack := repo.Call();
      return readBack, made;
    }
  }

  lemma KeysWithin(before: Tree, after: Tree, entries: seq<Captured>)
    requires SameElsewhere(before, after, entries)
    ensures forall q :: q in after ==> q in before || Captures(entries, q)
  {
    forall q | q in after ensures q in before || Captures(entries, q) {
      assert Captures(entries, q) || At(after, q) == At(before, q);
    }
  }

  lemma FitsLater(before: Tree, after: Tree, entries: seq<Captured>, phase: Phase)
    requires SameElsewhere(before, after, entries) && Fits(before, entries, phase)
    ensures Fits(after, entries, phase)
  {
    KeysWithin(before, after, entries);
  }

  /**
   The commits of a checkpoint form a chain from the base: staged versions first when
   they differ from HEAD, then working versions when they differ from the staged ones.
   */
  ghost predicate CheckpointChain(base: Commit, entries: seq<Captured>, commits: seq<(Phase, Commit)>) {
    && 1 <= |commits| <= 2
    && (forall i :: 0 <= i < |commits| ==>
      commits[i].1.Commit? && commits[i].1.parent == if i == 0 then base else commits[i - 1].1)
    && (forall i :: 0 <= i < |commits| ==>
      HasVersions(commits[i].1.tree, entries, commits[i].0) && SameElsewhere(base.tree, commits[i].1.tree, entries))
    && (commits[0].0.StagedPhase? <==> PhaseChanges(entries, StagedPhase))
    && (commits[|commits| - 1].0.WorkingPhase? <==> PhaseChanges(entries, WorkingPhase))
    && (|commits| == 2 ==> commits[0].0.StagedPhase? && commits[1].0.WorkingPhase?)
  }

  lemma PhasesChain(base: Commit, entries: seq<Captured>, staged: Option<Commit>, working: Option<Commit>)
    requires staged.Some? <==> PhaseChanges(entries, StagedPhase)
    requires working.Some? <==> PhaseChanges(entries, WorkingPhase)
    requires staged.Some? || working.Some?
    requires staged.Some? ==> staged.value.Commit? && staged.value.parent == base
    requires staged.Some? ==>
      HasVersions(staged.value.tree, entries, StagedPhase) && SameElsewhere(base.tree, staged.value.tree, entries)
    requires working.Some? ==>
      working.value.Commit? && working.value.parent == if staged.Some? then staged.value else base
    requires working.Some? ==>
      HasVersions(working.value.tree, entries, WorkingPhase)
    requires working.Some? ==> SameElsewhere(working.value.parent.tree, working.value.tree, entries)
    ensures CheckpointChain(base, entries,
              (if staged.Some? then [(StagedPhase, staged.value)] else [])
              + (if working.Some? then [(WorkingPhase, working.value)] else []))
  {
  }

  /** The capture recorded what HEAD has on each path. */
  predicate RecordsHead(m: Manifest, head: Commit) {
    forall i :: 0 <= i < |m.paths| ==> m.paths[i].head == At(head.tree, m.paths[i].path)
  }

  function CheckpointRef(id: string): string {
    "refs/kog/checkpoints/" + id
  }

  /** Nothing but a failing call stands in the way of the checkpoint. */
  ghost predicate CanCheckpoint(m: Manifest, refs: map<string, Commit>, checkouts: set<string>) {
    CheckpointRef(m.id) !in refs && m.id !in checkouts && PhasesFit(m)
  }

  /** The capture describes its base, there is something to save, and it fits in. */
  ghost predicate PhasesFit(m: Manifest) {
    && DistinctPaths(m.paths) && RecordsHead(m, m.baseHead)
    && Fits(m.baseHead.tree, m.paths, StagedPhase) && Fits(m.baseHead.tree, m.paths, WorkingPhase)
    && (PhaseChanges(m.paths, StagedPhase) || PhaseChanges(m.paths, WorkingPhase))
  }

  /** Both phases in a checkout of the base; `tip` is what the checkout ends at. */
  method RunPhases(repo: GitRepo, m: Manifest) returns (ok: bool, tip: Commit, commits: seq<(Phase, Commit)>)
    requires IsTree(m.baseHead.tree)
    modifies repo`failures
    ensures repo.failures >= old(repo.failures)
    ensures !ok ==> repo.failures > old(repo.failures) || !PhasesFit(m)
    ensures ok ==> CheckpointChain(m.baseHead, m.paths, commits) && tip == commits[|commits| - 1].1
    ensures ok && PhasesFit(m) ==> HasVersions(tip.tree, m.paths, WorkingPhase)
    ensures ok ==> SameElsewhere(m.baseHead.tree, tip.tree, m.paths)
  {
    commits, tip := [], m.baseHead;
    var checkout := new Checkout(m.baseHead);
    var staged, stagedCommit := checkout.RunPhase(repo, m.paths, StagedPhase);
    if !staged {
      return false, tip, commits;
    }
    if stagedCommit.Some? {
      commits := [(StagedPhase, stagedCommit.value)];
    }
    if Fits(m.baseHead.tree, m.paths, WorkingPhase) {
      FitsLater(m.baseHead.tree, checkout.tree, m.paths, WorkingPhase);
    }
    var worked, workingCommit := checkout.RunPhase(repo, m.paths, WorkingPhase);
    if !worked {
      return false, tip, commits;
    }
    if workingCommit.Some? {
      commits := commits + [(WorkingPhase, workingCommit.value)];
    }
    if commits == [] {
      return false, tip, commits;
    }
    PhasesChain(m.baseHead, m.paths, stagedCommit, workingCommit);
    return true, checkout.head, commits;
  }

  /** Makes the checkpoint in its own worktree and pins it under a ref; the caller's HEAD and index stay out of it. */
  method CreateCheckpointRef(repo: GitRepo, m: Manifest)
      returns (ok: bool, ref: string, commits: seq<(Phase, Commit)>)
    requires IsTree(m.baseHead.tree)
    modifies repo`refs, repo`checkouts, repo`failures
    ensures repo.failures >= old(repo.failures)
    ensures !ok ==> repo.failures > old(repo.failures) || !CanCheckpoint(m, old(repo.refs), old(repo.checkouts))
    ensures ok ==> ref !in old(repo.refs) && ref in repo.refs && CheckpointChain(m.baseHead, m.paths, commits)
    ensures ok ==> repo.refs == old(repo.refs)[ref := commits[|commits| - 1].1]
    ensures ok ==> HasVersions(repo.refs[ref].tree, m.paths, WorkingPhase)
    ensures ok ==> SameElsewhere(m.baseHead.tree, repo.refs[ref].tree, m.paths)
    ensures ok ==> repo.checkouts == old(repo.checkouts)
    ensures forall r :: r in old(repo.refs) ==> r in repo.refs && repo.refs[r] == old(repo.refs[r])
  {
    ref, commits := CheckpointRef(m.id), [];
    if ref in repo.refs || m.id in repo.checkouts {
      return false, ref, commits;
    }
    var added := repo.Call();
    if !added {
      return false, ref, commits;
    }
    repo.checkouts := repo.checkouts + {m.id};
    var made, tip;
    made, tip, commits := RunPhases(repo, m);
    if !made {
      return false, ref, commits;
    }
    var pinned := repo.Call();
    if !pinned {
      return false, ref, commits;
    }
    repo.refs := repo.refs[ref := tip];
    var readBack := MatchesVersions(repo, tip.tree, m.paths, WorkingPhase);
    if !readBack {
      return false, ref, commits;
    }
    var removed := repo.Call();
    if !removed {
      return false, ref, commits;
    }
    repo.checkouts := repo.checkouts - {m.id};
    return true, ref, commits;
  }
}
