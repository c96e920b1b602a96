/**
 Trees, commits and the index as values: a blob is its text, a commit is its parent
 and its tree, so equal object ids are equal values.
 */
module GitTree {
  import opened Common
  import opened Text

  /** A gitlink records a commit of a nested repository; its text is the id of that commit. */
  datatype Mode = Regular | Executable | Gitlink
  datatype File = File(mode: Mode, text: string)

  /** The files of a tree or of a working directory, checked-out submodules as gitlinks; directories are implied. */
  type Tree = map<string, File>

  datatype Commit = Root(tree: Tree) | Commit(parent: Commit, tree: Tree)

  /** An index entry with the flag letter `ls-files -v` shows. */
  datatype Record = Record(file: File, flag: char)
  type Index = map<string, Record>

  function At(t: Tree, path: string): Option<File> {
    if path in t then Some(t[path]) else None
  }

  function Staged(index: Index, path: string): Option<File> {
    if path in index then Some(index[path].file) else None
  }

  /** No file lies below another one. */
  predicate IsTree(t: Tree) {
    forall p, q :: p in t && q in t ==> !IsBelow(p, q)
  }

  predicate CoveredBy(selector: string, path: string) {
    path == selector || IsBelow(selector, path)
  }

  /** What pathspecs select: the named paths and everything below them. */
  predicate Covered(paths: seq<string>, path: string) {
    exists i :: 0 <= i < |paths| && CoveredBy(paths[i], path)
  }

  // ---------------------------------------------------------------- staging

  /** `git add -u -- paths`: tracked files take their working version or disappear. */
  function UpdateTracked(t: Tree, working: Tree, paths: seq<string>): Tree {
    map q | q in t && (Covered(paths, q) ==> q in working) :: if Covered(paths, q) then working[q] else t[q]
  }

  predicate Conflicts(p: string, q: string) {
    IsBelow(p, q) || IsBelow(q, p)
  }

  /** `git add -- path` for one new file; files in the way of its directories are replaced. */
  function AddNew(t: Tree, working: Tree, path: string): Tree
    requires path in working
  {
    (map q | q in t && !Conflicts(path, q) :: t[q])[path := working[path]]
  }

  function AddAllNew(t: Tree, working: Tree, paths: seq<string>): Tree
    requires forall i :: 0 <= i < |paths| ==> paths[i] in working
  {
    if paths == [] then t
    else AddNew(AddAllNew(t, working, paths[..|paths| - 1]), working, paths[|paths| - 1])
  }

  /** HEAD has the path, or something below it. */
  predicate Tracked(head: Tree, path: string) {
    exists q :: q in head && CoveredBy(path, q)
  }

  function TrackedPaths(head: Tree, paths: seq<string>): seq<string> {
    if paths == [] then []
    else
      var front, last := TrackedPaths(head, paths[..|paths| - 1]), paths[|paths| - 1];
      if Tracked(head, last) then front + [last] else front
  }

  function NewPaths(head: Tree, paths: seq<string>): seq<string> {
    if paths == [] then []
    else
      var front, last := NewPaths(head, paths[..|paths| - 1]), paths[|paths| - 1];
      if Tracked(head, last) then front else front + [last]
  }

  lemma {:induction false} PathsSplit(head: Tree, paths: seq<string>)
    ensures forall p :: p in TrackedPaths(head, paths) <==> p in paths && Tracked(head, p)
    ensures forall p :: p in NewPaths(head, paths) <==> p in paths && !Tracked(head, p)
  {
    if paths != [] {
      PathsSplit(head, paths[..|paths| - 1]);
      assert paths == paths[..|paths| - 1] + [paths[|paths| - 1]];
    }
  }

  /** `git reset -q HEAD -- paths` on an index; entries that already match keep their flags. */
  function ResetPaths(index: Index, head: Tree, paths: seq<string>): Index {
    map q | q in index.Keys + head.Keys
      && (if Covered(paths, q) then q in head else q in index && !InTheWay(index, head, paths, q)) ::
      if Covered(paths, q) then ResetRecord(index, head, q) else index[q]
  }

  function ResetRecord(index: Index, head: Tree, q: string): Record
    requires q in head
  {
    if q in index && index[q].file == head[q] then index[q] else Record(head[q], 'H')
  }

  /** An entry that the reset has to replace by a directory. */
  predicate InTheWay(index: Index, head: Tree, paths: seq<string>, q: string) {
    exists r :: r in head && Covered(paths, r) && Staged(index, r) != Some(head[r]) && IsBelow(q, r)
  }

  // ---------------------------------------------------------------- what staging does to each path

  lemma {:induction false} AddAllNewAt(t: Tree, working: Tree, paths: seq<string>, q: string)
    requires IsTree(working) && forall i :: 0 <= i < |paths| ==> paths[i] in working
    ensures At(AddAllNew(t, working, paths), q) ==
      if q in paths then At(working, q)
      else if exists i :: 0 <= i < |paths| && Conflicts(paths[i], q) then None
      else At(t, q)
  {
    if paths != [] {
      var front, last := paths[..|paths| - 1], paths[|paths| - 1];
      AddAllNewAt(t, working, front, q);
      assert paths == front + [last];
      if exists i :: 0 <= i < |front| && Conflicts(front[i], q) {
        var i :| 0 <= i < |front| && Conflicts(front[i], q);
        assert Conflicts(paths[i], q);
      }
      if q !in paths && exists i :: 0 <= i < |paths| && Conflicts(paths[i], q) {
        var i :| 0 <= i < |paths| && Conflicts(paths[i], q);
        assert i < |front| ==> Conflicts(front[i], q);
      }
    }
  }

  /** The tree that exact-path staging builds from HEAD. */
  function StagedTree(head: Tree, working: Tree, paths: seq<string>): Tree
    requires forall i :: 0 <= i < |NewPaths(head, paths)| ==> NewPaths(head, paths)[i] in working
  {
    AddAllNew(UpdateTracked(head, working, TrackedPaths(head, paths)), working, NewPaths(head, paths))
  }

  /** Selected files go in as the working tree has them, everything else stays as in HEAD. */
  ghost predicate ExactlySelected(head: Tree, working: Tree, paths: seq<string>, result: Tree) {
    forall q :: At(result, q) == if q in paths then At(working, q) else At(head, q)
  }

  /** HEAD and the selection do not turn files into directories or back. */
  ghost predicate NoFileDirectoryChange(head: Tree, working: Tree, paths: seq<string>) {
    forall p, q :: p in paths && q in head ==> !IsBelow(q, p) && (IsBelow(p, q) ==> q in paths && p !in working)
  }

  /** No selector names a directory of the working tree. */
  ghost predicate SelectsFiles(working: Tree, paths: seq<string>) {
    forall p, w :: p in paths && w in working ==> !IsBelow(p, w)
  }

  ghost predicate Stageable(head: Tree, working: Tree, paths: seq<string>) {
    && IsTree(head) && IsTree(working) && SelectsFiles(working, paths)
    && forall i :: 0 <= i < |NewPaths(head, paths)| ==> NewPaths(head, paths)[i] in working
  }

  lemma CoveredByOne(paths: seq<string>, p: string, q: string)
    requires p in paths && CoveredBy(p, q)
    ensures Covered(paths, q)
  {
    var i :| 0 <= i < |paths| && paths[i] == p;
    assert CoveredBy(paths[i], q);
  }

  lemma UpdateAt(head: Tree, working: Tree, paths: seq<string>, q: string)
    ensures At(UpdateTracked(head, working, paths), q) ==
      if q !in head then None else if Covered(paths, q) then At(working, q) else At(head, q)
  {
  }

  /** The tree has a directory at `path`. */
  predicate IsDirectory(t: Tree, path: string) {
    exists q :: q in t && IsBelow(path, q)
  }

  /** A selected path is above or below `q`. */
  predicate Crosses(paths: seq<string>, q: string) {
    exists i :: 0 <= i < |paths| && Conflicts(paths[i], q)
  }

  /**
   The staged tree path by path: a selected path has its working version, unless HEAD
   has a directory there; what lies above or below a selected path is gone; all other
   paths are as in HEAD.
   */
  lemma StagedByPath(head: Tree, working: Tree, paths: seq<string>, q: string)
    requires Stageable(head, working, paths)
    ensures At(StagedTree(head, working, paths), q) ==
      if q in paths then if IsDirectory(head, q) then None else At(working, q)
      else if Crosses(paths, q) then None
      else At(head, q)
  {
    var tracked, added := TrackedPaths(head, paths), NewPaths(head, paths);
    PathsSplit(head, paths);
    UpdateAt(head, working, tracked, q);
    AddAllNewAt(UpdateTracked(head, working, tracked), working, added, q);
    assert forall i :: 0 <= i < |added| ==> added[i] in paths && added[i] in working;
    assert forall i :: 0 <= i < |tracked| ==> tracked[i] in paths;
    if i :| 0 <= i < |added| && Conflicts(added[i], q) {
      var k :| 0 <= k < |paths| && paths[k] == added[i];
      assert Crosses(paths, q);
      if q in paths && IsBelow(added[i], q) {
        NewHasNothingBelow(head, paths, added[i], q);
      }
    } else if q in head {
      KeptOrCovered(head, working, paths, q);
    } else if q in paths {
      if r :| r in head && CoveredBy(q, r) {
        assert IsBelow(q, r);
      }
    }
  }

  lemma NewHasNothingBelow(head: Tree, paths: seq<string>, p: string, q: string)
    requires !Tracked(head, p) && IsBelow(p, q)
    ensures q !in head && !IsDirectory(head, q)
  {
    if q in head {
      assert CoveredBy(p, q);
    } else if r :| r in head && IsBelow(q, r) {
      BelowTransitive(p, q, r);
      assert CoveredBy(p, r);
    }
  }

  /** What HEAD does not track because HEAD has a file above it is new. */
  lemma BelowFileIsNew(head: Tree, working: Tree, paths: seq<string>, p: string, q: string)
    requires Stageable(head, working, paths) && p in paths && q in head && IsBelow(q, p)
    ensures p in NewPaths(head, paths) && p in working && q !in paths
  {
    PathsSplit(head, paths);
    if r :| r in head && CoveredBy(p, r) {
      if r != p {
        BelowTransitive(q, p, r);
      }
    }
    var k :| 0 <= k < |NewPaths(head, paths)| && NewPaths(head, paths)[k] == p;
  }

  /** A file of HEAD that meets no new path is covered exactly when it is selected or lies below a selected path. */
  lemma KeptOrCovered(head: Tree, working: Tree, paths: seq<string>, q: string)
    requires Stageable(head, working, paths) && q in head
    requires forall i :: 0 <= i < |NewPaths(head, paths)| ==> !Conflicts(NewPaths(head, paths)[i], q)
    ensures Covered(TrackedPaths(head, paths), q) <==> q in paths || Crosses(paths, q)
    ensures q !in paths && Crosses(paths, q) ==> q !in working
  {
    PathsSplit(head, paths);
    if q in paths {
      assert CoveredBy(q, q);
      CoveredByOne(TrackedPaths(head, paths), q, q);
    } else if i :| 0 <= i < |paths| && Conflicts(paths[i], q) {
      if IsBelow(q, paths[i]) {
        BelowFileIsNew(head, working, paths, paths[i], q);
        assert false;
      }
      assert CoveredBy(paths[i], q) && Tracked(head, paths[i]);
      CoveredByOne(TrackedPaths(head, paths), paths[i], q);
    } else if i :| 0 <= i < |TrackedPaths(head, paths)| && CoveredBy(TrackedPaths(head, paths)[i], q) {
      assert TrackedPaths(head, paths)[i] in TrackedPaths(head, paths);
    }
  }

  /** Staging takes exactly the selected files if and only if no file and directory change places. */
  lemma StagesExactlySelected(head: Tree, working: Tree, paths: seq<string>)
    requires Stageable(head, working, paths)
    ensures ExactlySelected(head, working, paths, StagedTree(head, working, paths)) <==>
            NoFileDirectoryChange(head, working, paths)
  {
    var result := StagedTree(head, working, paths);
    if NoFileDirectoryChange(head, working, paths) {
      forall q ensures At(result, q) == if q in paths then At(working, q) else At(head, q) {
        StagedByPath(head, working, paths, q);
      }
    }
    if ExactlySelected(head, working, paths, result) {
      forall p, q | p in paths && q in head ensures !IsBelow(q, p) && (IsBelow(p, q) ==> q in paths && p !in working) {
        StagedByPath(head, working, paths, p);
        StagedByPath(head, working, paths, q);
        if IsBelow(q, p) {
          BelowFileIsNew(head, working, paths, p, q);
        }
        if Conflicts(p, q) {
          var i :| 0 <= i < |paths| && paths[i] == p;
          assert Conflicts(paths[i], q);
        }
      }
    }
  }

  /**
   Off the selection the two trees agree, and where the working tree has a selected
   file either both or neither have a directory in its place.
   */
  ghost predicate StagesAlike(t: Tree, u: Tree, working: Tree, paths: seq<string>) {
    && (forall q :: q !in paths && !Crosses(paths, q) ==> At(t, q) == At(u, q))
    && forall p :: p in paths && p in working ==> (IsDirectory(t, p) <==> IsDirectory(u, p))
  }

  lemma SameTree(t: Tree, u: Tree)
    requires forall q :: At(t, q) == At(u, q)
    ensures t == u
  {
    forall q ensures (q in t <==> q in u) && (q in t ==> t[q] == u[q]) {
      assert At(t, q) == At(u, q);
    }
  }

  /** What two trees must share for the same selection to give the same staged tree. */
  lemma SameStagedIff(t: Tree, u: Tree, working: Tree, paths: seq<string>)
    requires Stageable(t, working, paths) && Stageable(u, working, paths)
    ensures StagedTree(t, working, paths) == StagedTree(u, working, paths) <==> StagesAlike(t, u, working, paths)
  {
    forall q ensures At(StagedTree(t, working, paths), q) == At(StagedTree(u, working, paths), q) <==>
      if q in paths then q in working ==> (IsDirectory(t, q) <==> IsDirectory(u, q))
      else !Crosses(paths, q) ==> At(t, q) == At(u, q)
    {
      StagedByPath(t, working, paths, q);
      StagedByPath(u, working, paths, q);
    }
    if StagesAlike(t, u, working, paths) {
      SameTree(StagedTree(t, working, paths), StagedTree(u, working, paths));
    } else if StagedTree(t, working, paths) == StagedTree(u, working, paths) {
      assert StagesAlike(t, u, working, paths);
    }
  }

  /** A selection can be staged on a tree exactly when every selected path is in the working tree or tracked. */
  lemma StageableIff(t: Tree, working: Tree, paths: seq<string>)
    requires IsTree(t) && IsTree(working) && SelectsFiles(working, paths)
    ensures Stageable(t, working, paths) <==> forall p :: p in paths ==> p in working || Tracked(t, p)
  {
    PathsSplit(t, paths);
    assert forall i :: 0 <= i < |NewPaths(t, paths)| ==> NewPaths(t, paths)[i] in NewPaths(t, paths);
  }

  lemma UpdateNothing(t: Tree, working: Tree)
    ensures UpdateTracked(t, working, []) == t
  {
  }

  lemma {:induction false} StagedIsTree(t: Tree, working: Tree, paths: seq<string>)
    requires IsTree(t) && forall i :: 0 <= i < |paths| ==> paths[i] in working
    ensures IsTree(AddAllNew(t, working, paths))
  {
    if paths != [] {
      StagedIsTree(t, working, paths[..|paths| - 1]);
    }
  }
}
