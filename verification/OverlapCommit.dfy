/** Committing only the caller's own text on paths that already carried other work. */
module OverlapCommit {
  import opened Common
  import opened Text
  import opened GitTree
  import opened GitRepository
  import opened Checkpoint

  // The own part is computed by three-way merges, proved by replaying it, committed through
  // an isolated index, and the real index is reconciled last.

  /** External tools: merge-file (current, base, other), the clean filter of a path, and the content rules. */
  datatype Tools = Tools(
    merge: (string, string, string) -> Option<string>,
    clean: (string, string) -> string,
    binary: (string, string) -> bool,
    secret: string -> bool)

  /**
   The own part of one captured path, and where it goes. The working file is read
   twice: `final` is what the first read saw and every later check compares with,
   `read` is the text of the second read, out of which the own text is separated.
   */
  datatype Prepared = Prepared(path: string, head: File, staged: File, working: File, final: File, read: string,
                               own: string, restaged: string)

  /** The working files at the two reads of one path. */
  datatype Looks = Looks(first: Tree, second: Tree)

  datatype Blocker =
    | UnsupportedShape | ReadFailed | SecretDetected | BinaryOverlap | ModeOverlap | InseparableOverlap
    | NoSelectedChanges | CheckpointMissing | SecretRulesUnavailable | ProtectedBranch | StaleBaseHead | ScopeMismatch | StagedContamination
    | GitIndexLock | SnapshotDrift | CheckpointCommitFailed | RestoreFailed | IndexUnavailable
    | PreservationFailed | TemporaryIndexFailed | GitCommitFailed | ReadbackFailed | ReconcileFailed

  /** `RecoveryRequired` is an error after the own commit was made. */
  datatype OverlapResult = Blocked(why: Blocker) | Preview | Committed(ref: string) | RecoveryRequired(why: Blocker)

  /** The repository when the command starts. */
  datatype Start = Start(head: Commit, branch: string, index: Index, working: Tree, indexLocked: bool,
                         refs: map<string, Commit>, checkouts: set<string>)

  ghost function StartOf(repo: GitRepo): Start
    reads repo
  {
    Start(repo.head, repo.branch, repo.index, repo.working, repo.indexLocked, repo.refs, repo.checkouts)
  }

  /** What other programs can change is as it was. */
  ghost predicate AsAt(repo: GitRepo, s: Start)
    reads repo
  {
    && repo.head == s.head && repo.branch == s.branch && repo.index == s.index && repo.working == s.working
    && repo.indexLocked == s.indexLocked
  }

  // ---------------------------------------------------------------- separating the own text

  /**
   Taking the captured change back out of the text that was read gives the own text,
   and replaying the own text on the captured one gives the text that was read again.
   */
  ghost predicate Separated(tools: Tools, p: Prepared) {
    && tools.merge(tools.clean(p.path, p.read), tools.clean(p.path, p.working.text), p.head.text) == Some(p.own)
    && tools.merge(tools.clean(p.path, p.working.text), p.head.text, p.own) == Some(tools.clean(p.path, p.read))
    && tools.merge(p.staged.text, p.head.text, p.own) == Some(p.restaged)
    && p.final.mode == p.working.mode
  }

  ghost predicate PreparedFrom(e: Captured, looks: Looks, p: Prepared) {
    && p.path == e.path && e.head == Some(p.head) && e.staged == Some(p.staged) && e.working == Some(p.working)
    && At(looks.first, e.path) == Some(p.final)
    && e.path in looks.second && looks.second[e.path].text == p.read
  }

  ghost predicate AllPrepared(tools: Tools, entries: seq<Captured>, looks: seq<Looks>, prepared: seq<Prepared>) {
    && |prepared| == |entries| == |looks|
    && forall i :: 0 <= i < |prepared| ==> PreparedFrom(entries[i], looks[i], prepared[i]) && Separated(tools, prepared[i])
  }

  predicate OwnChange(prepared: seq<Prepared>) {
    exists i :: 0 <= i < |prepared| && prepared[i].own != prepared[i].head.text
  }

  /** Nothing in these texts stands in the way of the separation. */
  predicate Separable(tools: Tools, path: string, base: string, staged: string, before: File, file: File) {
    var cleanBefore, cleanFinal := tools.clean(path, before.text), tools.clean(path, file.text);
    var own := tools.merge(cleanFinal, cleanBefore, base);
    && !(tools.secret(file.text) || tools.secret(staged) || tools.secret(before.text))
    && !(tools.secret(cleanBefore) || tools.secret(cleanFinal))
    && !(tools.binary(path, base) || tools.binary(path, staged) || tools.binary(path, before.text))
    && !(tools.binary(path, file.text) || tools.binary(path, cleanBefore) || tools.binary(path, cleanFinal))
    && file.mode == before.mode
    && own.Some? && tools.merge(cleanBefore, base, own.value) == Some(cleanFinal)
    && tools.merge(staged, base, own.value).Some?
  }

  /** The capture has three versions of the path, and what the working tree has can be separated from them. */
  predicate PathReady(tools: Tools, e: Captured, working: Tree) {
    && e.head.Some? && e.staged.Some? && e.working.Some? && e.path in working
    && e.head.value.mode != Gitlink && e.staged.value.mode != Gitlink && e.working.value.mode != Gitlink
    && working[e.path].mode != Gitlink
    && Separable(tools, e.path, e.head.value.text, e.staged.value.text, e.working.value, working[e.path])
  }

  predicate AllReady(tools: Tools, entries: seq<Captured>, working: Tree) {
    forall i :: 0 <= i < |entries| ==> PathReady(tools, entries[i], working)
  }

  /** Reasons that lie in a captured path. */
  predicate IsTextual(why: Blocker) {
    || why.UnsupportedShape? || why.ReadFailed? || why.SecretDetected? || why.BinaryOverlap? || why.ModeOverlap?
    || why.InseparableOverlap?
  }

  /** The separation itself, from the texts that were read. */
  method SeparateOwn(tools: Tools, e: Captured, base: File, staged: File, before: File, final: File, read: string)
      returns (why: Option<Blocker>, p: Option<Prepared>)
    requires e.head == Some(base) && e.staged == Some(staged) && e.working == Some(before)
    ensures why.None? <==> p.Some?
    ensures why.None? <==> Separable(tools, e.path, base.text, staged.text, before, File(final.mode, read))
    ensures why.Some? ==> IsTextual(why.value)
    ensures p.Some? ==> Separated(tools, p.value)
    ensures p.Some? ==> p.value.path == e.path && p.value.head == base && p.value.staged == staged
    ensures p.Some? ==> p.value.working == before && p.value.final == final && p.value.read == read
    ensures p.Some? ==> !tools.secret(read) && !tools.secret(staged.text) && !tools.secret(before.text)
  {
    p := None;
    if tools.secret(read) || tools.secret(staged.text) || tools.secret(before.text) {
      return Some(SecretDetected), p;
    }
    if tools.binary(e.path, base.text) || tools.binary(e.path, staged.text)
       || tools.binary(e.path, before.text) || tools.binary(e.path, read) {
      return Some(BinaryOverlap), p;
    }
    if final.mode != before.mode {
      return Some(ModeOverlap), p;
    }
    var cleanBefore, cleanFinal := tools.clean(e.path, before.text), tools.clean(e.path, read);
    if tools.secret(cleanBefore) || tools.secret(cleanFinal) {
      return Some(SecretDetected), p;
    }
    if tools.binary(e.path, cleanBefore) || tools.binary(e.path, cleanFinal) {
      return Some(BinaryOverlap), p;
    }
    var own := tools.merge(cleanFinal, cleanBefore, base.text);
    if own.None? {
      return Some(InseparableOverlap), p;
    }
    var replay := tools.merge(cleanBefore, base.text, own.value);
    if replay != Some(cleanFinal) {
      return Some(InseparableOverlap), p;
    }
    var restaged := tools.merge(staged.text, base.text, own.value);
    if restaged.None? {
      return Some(InseparableOverlap), p;
    }
    return None, Some(Prepared(e.path, base, staged, before, final, read, own.value, restaged.value));
  }

  /** Reads the working file twice, others acting before each read, and separates the own text. */
  method PreparePath(repo: GitRepo, tools: Tools, e: Captured)
      returns (why: Option<Blocker>, p: Option<Prepared>, ghost looks: Looks)
    requires repo.Valid()
    modifies repo`head, repo`branch, repo`index, repo`working, repo`indexLocked, repo`failures, repo`moves
    ensures repo.Valid() && repo.failures >= old(repo.failures) && repo.moves >= old(repo.moves)
    ensures repo.moves == old(repo.moves) ==> AsAt(repo, old(StartOf(repo)))
    ensures why.None? <==> p.Some?
    ensures why.Some? ==> IsTextual(why.value)
    ensures why.Some? ==>
      repo.failures > old(repo.failures) || repo.moves > old(repo.moves) || !PathReady(tools, e, old(repo.working))
    ensures p.Some? && repo.moves == old(repo.moves) ==> looks == Looks(old(repo.working), old(repo.working))
    ensures p.Some? ==> PreparedFrom(e, looks, p.value) && Separated(tools, p.value)
    ensures p.Some? ==> !tools.secret(p.value.final.text) && !tools.secret(p.value.read)
    ensures p.Some? ==> !tools.secret(p.value.staged.text) && !tools.secret(p.value.working.text)
  {
    p, looks := None, Looks(repo.working, repo.working);
    if e.head.None? || e.staged.None? || e.working.None? {
      return Some(UnsupportedShape), p, looks;
    }
    var base, staged, before := e.head.value, e.staged.value, e.working.value;
    var readable := repo.Call();
    if !readable || base.mode == Gitlink || staged.mode == Gitlink || before.mode == Gitlink {
      return Some(ReadFailed), p, looks;
    }
    repo.Interfere();
    looks := looks.(first := repo.working);
    if e.path !in repo.working {
      return Some(UnsupportedShape), p, looks;
    }
    var final := repo.working[e.path];
    if final.mode == Gitlink {
      return Some(ReadFailed), p, looks;
    }
    if tools.secret(final.text) {
      return Some(SecretDetected), p, looks;
    }
    repo.Interfere();
    looks := looks.(second := repo.working);
    if e.path !in repo.working || repo.working[e.path].mode == Gitlink {
      return Some(ReadFailed), p, looks;
    }
    why, p := SeparateOwn(tools, e, base, staged, before, final, repo.working[e.path].text);
  }

  method PrepareOwnOverlap(repo: GitRepo, tools: Tools, entries: seq<Captured>)
      returns (why: Option<Blocker>, prepared: seq<Prepared>, ghost looks: seq<Looks>)
    requires repo.Valid()
    modifies repo`head, repo`branch, repo`index, repo`working, repo`indexLocked, repo`failures, repo`moves
    ensures repo.Valid() && repo.failures >= old(repo.failures) && repo.moves >= old(repo.moves)
    ensures repo.moves == old(repo.moves) ==> AsAt(repo, old(StartOf(repo)))
    ensures why.None? ==> AllPrepared(tools, entries, looks, prepared) && OwnChange(prepared)
    ensures why == Some(NoSelectedChanges) ==> AllPrepared(tools, entries, looks, prepared) && !OwnChange(prepared)
    ensures why.Some? && why != Some(NoSelectedChanges) ==>
      && IsTextual(why.value)
      && (repo.failures > old(repo.failures) || repo.moves > old(repo.moves) || !AllReady(tools, entries, old(repo.working)))
    ensures repo.moves == old(repo.moves) ==> forall i :: 0 <= i < |looks| ==>
      looks[i] == Looks(old(repo.working), old(repo.working))
  {
    prepared, looks := [], [];
    var anyOwnChange := false;
    for i := 0 to |entries|
      invariant repo.Valid() && |prepared| == |looks| == i
      invariant repo.failures >= old(repo.failures) && repo.moves >= old(repo.moves)
      invariant repo.moves == old(repo.moves) ==> AsAt(repo, old(StartOf(repo)))
      invariant repo.moves == old(repo.moves) ==> forall k :: 0 <= k < |looks| ==>
        looks[k] == Looks(old(repo.working), old(repo.working))
      invariant forall k :: 0 <= k < i ==> PreparedFrom(entries[k], looks[k], prepared[k]) && Separated(tools, prepared[k])
      invariant anyOwnChange <==> OwnChange(prepared)
    {
      var blocker, p;
      ghost var seen;
      blocker, p, seen := PreparePath(repo, tools, entries[i]);
      if blocker.Some? {
        return blocker, prepared, looks;
      }
      ghost var shorter := prepared;
      prepared, looks := prepared + [p.value], looks + [seen];
      anyOwnChange := anyOwnChange || p.value.own != p.value.head.text;
      OwnChangeGrows(shorter, p.value);
    }
    why := if anyOwnChange then None else Some(NoSelectedChanges);
  }

  lemma OwnChangeGrows(prepared: seq<Prepared>, p: Prepared)
    ensures OwnChange(prepared + [p]) <==> OwnChange(prepared) || p.own != p.head.text
  {
    var longer := prepared + [p];
    assert longer[|prepared|] == p;
    if i :| 0 <= i < |prepared| && prepared[i].own != prepared[i].head.text {
      assert longer[i] == prepared[i];
    }
  }

  // ---------------------------------------------------------------- the two prepared indexes

  ghost predicate DistinctTargets(prepared: seq<Prepared>) {
    forall i, j :: 0 <= i < j < |prepared| ==> prepared[i].path != prepared[j].path
  }

  predicate Targets(prepared: seq<Prepared>, path: string) {
    exists i :: 0 <= i < |prepared| && prepared[i].path == path
  }

  /** Base tree with the own text on every captured path. */
  ghost predicate OwnTree(base: Tree, prepared: seq<Prepared>, t: Tree) {
    && (forall i :: 0 <= i < |prepared| ==>
      At(t, prepared[i].path) == Some(File(prepared[i].head.mode, prepared[i].own)))
    && forall q :: !Targets(prepared, q) ==> At(t, q) == At(base, q)
  }

  /** The index with the restaged text on every captured path; modes stay, and flags, which are plain. */
  ghost predicate Reconciled(before: Index, prepared: seq<Prepared>, after: Index) {
    && (forall i :: 0 <= i < |prepared| ==>
      var path := prepared[i].path;
      path in before && path in after && before[path].flag == 'H'
      && after[path] == Record(File(before[path].file.mode, prepared[i].restaged), before[path].flag))
    && forall q :: !Targets(prepared, q) ==> (q in after <==> q in before) && (q in before ==> after[q] == before[q])
  }

  /** The own blobs fit into the tree. */
  ghost predicate OwnFits(t: Tree, prepared: seq<Prepared>) {
    forall i :: 0 <= i < |prepared| ==>
      && prepared[i].head.mode != Gitlink
      && forall q :: q in t || Targets(prepared, q) ==> !Conflicts(prepared[i].path, q)
  }

  method StageOwn(repo: GitRepo, base: Tree, prepared: seq<Prepared>) returns (t: Option<Tree>)
    requires IsTree(base) && DistinctTargets(prepared)
    modifies repo`failures
    ensures repo.failures >= old(repo.failures)
    ensures t.None? ==> repo.failures > old(repo.failures) || !OwnFits(base, prepared)
    ensures t.Some? ==> OwnTree(base, prepared, t.value) && IsTree(t.value)
  {
    var tree := base;
    for i := 0 to |prepared|
      invariant IsTree(tree) && OwnTree(base, prepared[..i], tree) && repo.failures >= old(repo.failures)
    {
      var p := prepared[i];
      var fits := repo.Call();
      var installed := InstallVersion(tree, p.path, Some(File(p.head.mode, p.own)));
      if !fits || installed.None? {
        OwnKeys(base, prepared, i, tree);
        return None;
      }
      TargetsGrow(prepared, i);
      tree := installed.value;
    }
    assert prepared[..|prepared|] == prepared;
    return Some(tree);
  }

  lemma OwnKeys(base: Tree, prepared: seq<Prepared>, i: nat, tree: Tree)
    requires i <= |prepared| && OwnTree(base, prepared[..i], tree)
    ensures forall q :: q in tree ==> q in base || Targets(prepared, q)
  {
    forall q | q in tree ensures q in base || Targets(prepared, q) {
      if Targets(prepared[..i], q) {
        var k :| 0 <= k < i && prepared[..i][k].path == q;
        assert prepared[k].path == q;
      } else {
        assert At(tree, q) == At(base, q);
      }
    }
  }

  lemma TargetsGrow(prepared: seq<Prepared>, i: nat)
    requires i < |prepared|
    ensures forall q :: Targets(prepared[..i + 1], q) <==> Targets(prepared[..i], q) || q == prepared[i].path
  {
    forall q | Targets(prepared[..i], q) || q == prepared[i].path ensures Targets(prepared[..i + 1], q) {
      if q == prepared[i].path {
        assert prepared[..i + 1][i].path == q;
      } else {
        var k :| 0 <= k < i && prepared[..i][k].path == q;
        assert prepared[..i + 1][k].path == q;
      }
    }
    forall q | Targets(prepared[..i + 1], q) && q != prepared[i].path ensures Targets(prepared[..i], q) {
      var k :| 0 <= k < i + 1 && prepared[..i + 1][k].path == q;
      assert prepared[..i][k].path == q;
    }
  }

  /** `update-index --cacheinfo` on a copy of the index: the record is new, with a plain flag. */
  function CacheInfo(index: Index, path: string, file: File): Index {
    index[path := Record(file, 'H')]
  }

  predicate BlocksInstall(index: Index, path: string) {
    exists q :: q in index && Conflicts(path, q)
  }

  /** The record of this path has the restaged blob, its mode, and the flag it had before. */
  predicate Restaged(before: Index, copy: Index, p: Prepared) {
    && p.path in before && p.path in copy
    && copy[p.path] == Record(File(p.staged.mode, p.restaged), before[p.path].flag)
  }

  /** Every captured path of the copy has the restaged blob, its mode, and the flag it had before. */
  method CheckReconciled(repo: GitRepo, before: Index, copy: Index, prepared: seq<Prepared>) returns (ok: bool)
    modifies repo`failures
    ensures repo.failures >= old(repo.failures)
    ensures ok ==> forall i :: 0 <= i < |prepared| ==> Restaged(before, copy, prepared[i])
    ensures !ok ==>
      repo.failures > old(repo.failures) || exists i :: 0 <= i < |prepared| && !Restaged(before, copy, prepared[i])
  {
    for i := 0 to |prepared|
      invariant forall k :: 0 <= k < i ==> Restaged(before, copy, prepared[k])
      invariant repo.failures >= old(repo.failures)
    {
      var p := prepared[i];
      var listed := repo.Call();
      if !listed || Staged(copy, p.path) != Some(File(p.staged.mode, p.restaged))
         || p.path !in before || before[p.path].flag != copy[p.path].flag {
        return false;
      }
    }
    return true;
  }

  /** The copy after the restaged blobs of these paths are in. */
  ghost predicate Restaging(current: Index, prepared: seq<Prepared>, copy: Index) {
    && (forall i :: 0 <= i < |prepared| ==>
      prepared[i].path in copy
      && copy[prepared[i].path] == Record(File(prepared[i].staged.mode, prepared[i].restaged), 'H'))
    && forall q :: !Targets(prepared, q) ==>
      (q in copy <==> q in current) && (q in current ==> copy[q] == current[q])
  }

  /** A new record comes with a plain flag: so only paths that have one can be restaged, where nothing is in their way. */
  ghost predicate CanReconcile(index: Index, prepared: seq<Prepared>) {
    forall i :: 0 <= i < |prepared| ==>
      && prepared[i].path in index && index[prepared[i].path].flag == 'H'
      && forall q :: q in index || Targets(prepared, q) ==> !Conflicts(prepared[i].path, q)
  }

  method Restage(repo: GitRepo, current: Index, prepared: seq<Prepared>) returns (r: Option<Index>)
    requires DistinctTargets(prepared)
    modifies repo`failures
    ensures repo.failures >= old(repo.failures)
    ensures r.Some? ==> Restaging(current, prepared, r.value)
    ensures r.None? ==> repo.failures > old(repo.failures) || !CanReconcile(current, prepared)
  {
    var copy := current;
    for i := 0 to |prepared|
      invariant repo.failures >= old(repo.failures) && Restaging(current, prepared[..i], copy)
    {
      var p := prepared[i];
      var fits := repo.Call();
      if !fits || BlocksInstall(copy, p.path) {
        RestagedKeys(current, prepared, i, copy);
        return None;
      }
      RestagingStep(current, prepared, i, copy);
      copy := CacheInfo(copy, p.path, File(p.staged.mode, p.restaged));
    }
    assert prepared[..|prepared|] == prepared;
    return Some(copy);
  }

  lemma RestagingStep(current: Index, prepared: seq<Prepared>, i: nat, copy: Index)
    requires i < |prepared| && DistinctTargets(prepared) && Restaging(current, prepared[..i], copy)
    ensures var p := prepared[i];
      Restaging(current, prepared[..i + 1], CacheInfo(copy, p.path, File(p.staged.mode, p.restaged)))
  {
    var p := prepared[i];
    var next := CacheInfo(copy, p.path, File(p.staged.mode, p.restaged));
    TargetsGrow(prepared, i);
    forall k | 0 <= k < i + 1
      ensures prepared[k].path in next
      ensures next[prepared[k].path] == Record(File(prepared[k].staged.mode, prepared[k].restaged), 'H')
    {
      if k < i {
        assert prepared[..i][k] == prepared[k];
      }
    }
  }

  lemma RestagedKeys(current: Index, prepared: seq<Prepared>, i: nat, copy: Index)
    requires i <= |prepared| && Restaging(current, prepared[..i], copy)
    ensures forall q :: q in copy ==> q in current || Targets(prepared, q)
  {
    forall q | q in copy ensures q in current || Targets(prepared, q) {
      if Targets(prepared[..i], q) {
        var k :| 0 <= k < i && prepared[..i][k].path == q;
        assert prepared[k].path == q;
      }
    }
  }

  /** Prepares the new index on a copy of the one in place, and checks it against the one at the start. */
  method StageReconciled(repo: GitRepo, current: Index, before: Index, prepared: seq<Prepared>, paths: seq<string>)
      returns (why: Option<Blocker>, copy: Index)
    requires DistinctTargets(prepared) && forall q :: q in paths <==> Targets(prepared, q)
    requires forall i :: 0 <= i < |prepared| ==> Staged(before, prepared[i].path) == Some(prepared[i].staged)
    modifies repo`failures
    ensures repo.failures >= old(repo.failures)
    ensures why == None ==> Reconciled(before, prepared, copy)
    ensures why.Some? ==> why.value.ReconcileFailed? || why.value.PreservationFailed?
    ensures why.Some? ==> repo.failures > old(repo.failures) || current != before || !CanReconcile(before, prepared)
  {
    copy := current;
    var restaged := Restage(repo, current, prepared);
    if restaged.None? {
      return Some(ReconcileFailed), copy;
    }
    copy := restaged.value;
    var listed := repo.Call();
    if !listed || FilterUnrelated(copy, paths) != FilterUnrelated(before, paths) {
      return Some(PreservationFailed), copy;
    }
    var ok := CheckReconciled(repo, before, copy, prepared);
    if !ok {
      return Some(PreservationFailed), copy;
    }
    UnrelatedSame(before, copy, paths);
    why := None;
  }

  // ---------------------------------------------------------------- the commit

  predicate OwnedBranch(branch: string) {
    "refs/heads/codex/" <= branch || "refs/heads/feature/" <= branch
  }

  /** No reconstructed text matches a secret rule. */
  predicate NoSecret(tools: Tools, prepared: seq<Prepared>) {
    forall i :: 0 <= i < |prepared| ==> !tools.secret(prepared[i].own) && !tools.secret(prepared[i].restaged)
  }

  /** The capture was made by the same owner here, on this branch and HEAD. */
  predicate CapturedHere(m: Manifest, id: string, branch: string, head: Commit) {
    m.id == id && m.branch == branch && m.baseHead == head && m.ownerStable
  }

  /** The exact paths are the captured ones. */
  predicate CapturedScope(m: Manifest, paths: seq<string>) {
    |m.paths| == |paths| && forall i :: 0 <= i < |paths| ==> m.paths[i].path == paths[i]
  }

  /** The index has what was captured, blob, mode and flag. */
  predicate CapturedIndex(m: Manifest, before: Index) {
    forall i :: 0 <= i < |m.paths| ==>
      var e := m.paths[i];
      e.staged == Staged(before, e.path) && e.record == if e.path in before then Some(before[e.path]) else None
  }

  /** The manifest describes this branch, HEAD, scope and index. */
  predicate DescribesCapture(m: Manifest, id: string, branch: string, head: Commit, paths: seq<string>, before: Index) {
    CapturedHere(m, id, branch, head) && CapturedScope(m, paths) && CapturedIndex(m, before)
  }

  /** Each captured file was, when it was looked at, what the first read saw. */
  ghost predicate FinalsKept(kept: seq<Tree>, prepared: seq<Prepared>) {
    |kept| == |prepared| && forall i :: 0 <= i < |prepared| ==> At(kept[i], prepared[i].path) == Some(prepared[i].final)
  }

  predicate FinalsIn(working: Tree, prepared: seq<Prepared>) {
    forall i :: 0 <= i < |prepared| ==> At(working, prepared[i].path) == Some(prepared[i].final)
  }

  /** Looks at one captured file after the other; others may act before each look. */
  method CheckFinals(repo: GitRepo, prepared: seq<Prepared>) returns (ok: bool, ghost kept: seq<Tree>)
    requires repo.Valid()
    modifies repo`head, repo`branch, repo`index, repo`working, repo`indexLocked, repo`failures, repo`moves
    ensures repo.Valid() && repo.failures >= old(repo.failures) && repo.moves >= old(repo.moves)
    ensures repo.moves == old(repo.moves) ==> AsAt(repo, old(StartOf(repo)))
    ensures ok ==> FinalsKept(kept, prepared)
    ensures !ok ==>
      repo.failures > old(repo.failures) || repo.moves > old(repo.moves) || !FinalsIn(old(repo.working), prepared)
  {
    kept := [];
    for i := 0 to |prepared|
      invariant repo.Valid() && |kept| == i && repo.failures >= old(repo.failures) && repo.moves >= old(repo.moves)
      invariant repo.moves == old(repo.moves) ==> AsAt(repo, old(StartOf(repo)))
      invariant forall k :: 0 <= k < i ==> At(kept[k], prepared[k].path) == Some(prepared[k].final)
    {
      repo.Interfere();
      var hashed := repo.Call();
      if !hashed || At(repo.working, prepared[i].path) != Some(prepared[i].final) {
        return false, kept;
      }
      kept := kept + [repo.working];
    }
    ok := true;
  }

  /** Compares HEAD and the index, and then the captured files. */
  method LookAgain(repo: GitRepo, prepared: seq<Prepared>, head: Commit, index: Index) returns (same: bool)
    requires repo.Valid()
    modifies repo`head, repo`branch, repo`index, repo`working, repo`indexLocked, repo`failures, repo`moves
    ensures repo.Valid() && repo.failures >= old(repo.failures) && repo.moves >= old(repo.moves)
    ensures repo.moves == old(repo.moves) ==> AsAt(repo, old(StartOf(repo)))
    ensures same && repo.moves == old(repo.moves) ==> repo.head == head && repo.index == index
    ensures !same ==>
      || repo.failures > old(repo.failures) || repo.moves > old(repo.moves) || old(repo.head) != head
      || old(repo.index) != index || !FinalsIn(old(repo.working), prepared)
  {
    repo.Interfere();
    var resolved := repo.Call();
    if !resolved || repo.head != head || repo.index != index {
      return false;
    }
    var kept, _ := CheckFinals(repo, prepared);
    same := kept;
  }

  /**
   What Git met and left: HEAD when the own index was seeded, the commit that was read
   back, the working files at the last look at each, and the index put in place.
   */
  datatype Met = Met(seed: Commit, made: Commit, kept: seq<Tree>, settled: Index)

  /** What a successful run leaves, whatever the others did meanwhile. */
  ghost predicate Succeeded(head: Commit, before: Index, prepared: seq<Prepared>, met: Met) {
    && met.made.Commit? && met.made.parent == head
    && OwnTree(met.seed.tree, prepared, met.made.tree)
    && Reconciled(before, prepared, met.settled) && FinalsKept(met.kept, prepared)
  }

  /** What the caller asked for: a commit on `head` that changes only the captured paths, to the own text. */
  ghost predicate OwnCommitted(head: Commit, prepared: seq<Prepared>, made: Commit) {
    made.Commit? && made.parent == head && OwnTree(head.tree, prepared, made.tree)
  }

  ghost predicate Saved(refs: map<string, Commit>, ref: string, m: Manifest) {
    && ref in refs && HasVersions(refs[ref].tree, m.paths, WorkingPhase)
    && SameElsewhere(m.baseHead.tree, refs[ref].tree, m.paths)
  }

  /** HEAD, branch, index and the captured files are those the own text was prepared for. */
  ghost predicate Still(repo: GitRepo, head: Commit, branch: string, index: Index, prepared: seq<Prepared>)
    reads repo
  {
    repo.head == head && repo.branch == branch && repo.index == index && FinalsIn(repo.working, prepared)
  }

  lemma ReconciledKeepsUnrelated(before: Index, prepared: seq<Prepared>, after: Index, paths: seq<string>)
    requires Reconciled(before, prepared, after) && forall q :: q in paths <==> Targets(prepared, q)
    ensures FilterUnrelated(after, paths) == FilterUnrelated(before, paths)
  {
  }

  /** Puts the reconciled index in place, unless the index or HEAD has moved, and reads it back. */
  method SettleIndex(repo: GitRepo, made: Commit, before: Index, paths: seq<string>, reconciled: Index)
      returns (why: Option<Blocker>)
    requires repo.Valid()
    modifies repo`head, repo`branch, repo`index, repo`working, repo`indexLocked, repo`indexWrites
    modifies repo`failures, repo`moves
    ensures repo.Valid() && repo.failures >= old(repo.failures) && repo.moves >= old(repo.moves)
    ensures why.Some? ==>
      || repo.failures > old(repo.failures) || repo.moves > old(repo.moves) || old(repo.index) != before
      || old(repo.head) != made || FilterUnrelated(reconciled, paths) != FilterUnrelated(before, paths)
    ensures why == None ==> repo.indexWrites == old(repo.indexWrites) + [reconciled]
    ensures why == None ==> FilterUnrelated(repo.index, paths) == FilterUnrelated(before, paths)
    ensures repo.indexWrites == old(repo.indexWrites) || repo.indexWrites == old(repo.indexWrites) + [reconciled]
  {
    repo.Interfere();
    var replaced := repo.Call();
    if repo.index != before || repo.head != made || !replaced {
      return Some(ReconcileFailed);
    }
    repo.index := reconciled;
    repo.indexWrites := repo.indexWrites + [reconciled];
    repo.Interfere();
    var listed := repo.Call();
    if !listed || FilterUnrelated(repo.index, paths) != FilterUnrelated(before, paths) {
      return Some(PreservationFailed);
    }
    return None;
  }

  /** Reads the own commit back; others may act before every look at the repository. */
  method ReadBack(repo: GitRepo, initialHead: Commit, branch: string, before: Index, prepared: seq<Prepared>, own: Tree)
      returns (why: Option<Blocker>, made: Commit, ghost kept: seq<Tree>)
    requires repo.Valid()
    modifies repo`head, repo`branch, repo`index, repo`working, repo`indexLocked, repo`failures, repo`moves
    ensures repo.Valid() && repo.failures >= old(repo.failures) && repo.moves >= old(repo.moves)
    ensures repo.moves == old(repo.moves) ==> AsAt(repo, old(StartOf(repo)))
    ensures why.Some? ==>
      || repo.failures > old(repo.failures) || repo.moves > old(repo.moves)
      || old(repo.head) != Commit(initialHead, own) || old(repo.branch) != branch || old(repo.index) != before
      || !FinalsIn(old(repo.working), prepared)
    ensures why == None ==> made == Commit(initialHead, own) && FinalsKept(kept, prepared)
    ensures why == None && repo.moves == old(repo.moves) ==> repo.head == made && repo.index == before
  {
    repo.Interfere();
    made, kept := repo.head, [];
    var resolved := repo.Call();
    if !resolved {
      return Some(ReadbackFailed), made, kept;
    }
    repo.Interfere();
    resolved := repo.Call();
    if !resolved || repo.branch != branch || repo.head != made || !made.Commit? || made.parent != initialHead || made.tree != own {
      return Some(ReadbackFailed), made, kept;
    }
    repo.Interfere();
    var listed := repo.Call();
    if !listed || repo.index != before {
      return Some(StagedContamination), made, kept;
    }
    var same;
    same, kept := CheckFinals(repo, prepared);
    why := if same then None else Some(SnapshotDrift);
  }

  /** Commits the sealed own tree, reads it back, then puts the reconciled index in place. */
  method CommitOwn(repo: GitRepo, initialHead: Commit, branch: string, before: Index, prepared: seq<Prepared>,
                   paths: seq<string>, seed: Commit, own: Tree, reconciled: Index, ref: string)
      returns (r: OverlapResult, ghost met: Met)
    requires repo.Valid() && IsTree(own) && OwnTree(seed.tree, prepared, own) && Reconciled(before, prepared, reconciled)
    requires forall q :: q in paths <==> Targets(prepared, q)
    modifies repo`head, repo`branch, repo`index, repo`working, repo`indexLocked, repo`commits, repo`indexWrites
    modifies repo`failures, repo`moves
    ensures repo.Valid() && repo.failures >= old(repo.failures) && repo.moves >= old(repo.moves)
    ensures r == Blocked(GitCommitFailed) || r.RecoveryRequired? || r == Committed(ref)
    ensures !r.Committed? ==>
      || repo.failures > old(repo.failures) || repo.moves > old(repo.moves)
      || !old(Still(repo, initialHead, branch, before, prepared)) || own == initialHead.tree
    ensures r.Blocked? ==> repo.commits == old(repo.commits) && repo.indexWrites == old(repo.indexWrites)
    ensures r.Committed? ==> Succeeded(initialHead, before, prepared, met) && met.seed == seed
    ensures r.Committed? ==> repo.indexWrites == old(repo.indexWrites) + [met.settled]
    ensures r.Committed? ==> FilterUnrelated(repo.index, paths) == FilterUnrelated(before, paths)
    ensures r.Committed? || r.RecoveryRequired? ==> exists parent :: repo.commits == old(repo.commits) + [Commit(parent, own)]
    ensures r.RecoveryRequired? ==>
      repo.indexWrites == old(repo.indexWrites) || repo.indexWrites == old(repo.indexWrites) + [reconciled]
  {
    met := Met(seed, seed, [], reconciled);
    repo.Interfere();
    ghost var parent := repo.head;
    var committed := repo.CommitTree(own);
    if !committed {
      return Blocked(GitCommitFailed), met;
    }
    assert repo.commits == old(repo.commits) + [Commit(parent, own)];
    var why, made;
    ghost var kept;
    why, made, kept := ReadBack(repo, initialHead, branch, before, prepared, own);
    if why.Some? {
      return RecoveryRequired(why.value), met;
    }
    met := Met(seed, made, kept, reconciled);
    ReconciledKeepsUnrelated(before, prepared, reconciled, paths);
    why := SettleIndex(repo, made, before, paths, reconciled);
    if why.Some? {
      return RecoveryRequired(why.value), met;
    }
    return Committed(ref), met;
  }

  lemma CapturedTargets(m: Manifest, paths: seq<string>, prepared: seq<Prepared>, tools: Tools, looks: seq<Looks>,
                        before: Index)
    requires |m.paths| == |paths| && forall i :: 0 <= i < |paths| ==> m.paths[i].path == paths[i]
    requires forall i :: 0 <= i < |paths| ==> m.paths[i].staged == Staged(before, paths[i])
    requires forall i, j :: 0 <= i < j < |paths| ==> paths[i] != paths[j]
    requires AllPrepared(tools, m.paths, looks, prepared)
    ensures DistinctTargets(prepared) && forall q :: q in paths <==> Targets(prepared, q)
    ensures forall i :: 0 <= i < |prepared| ==> Staged(before, prepared[i].path) == Some(prepared[i].staged)
  {
    assert forall i :: 0 <= i < |prepared| ==> PreparedFrom(m.paths[i], looks[i], prepared[i]);
    forall q | q in paths ensures Targets(prepared, q) {
      var i :| 0 <= i < |paths| && paths[i] == q;
      assert prepared[i].path == q;
    }
  }

  /** Why a commit attempted under the index lock was refused. */
  ghost predicate LockedReason(why: Blocker, head: Tree, prepared: seq<Prepared>, failed: bool, moved: bool) {
    match why
    case TemporaryIndexFailed => failed || moved || !OwnFits(head, prepared)
    case NoSelectedChanges => failed || moved || OwnTree(head, prepared, head)
    case GitCommitFailed => failed || moved
    case SnapshotDrift => failed || moved
    case _ => false
  }

  /** Seeds the own index from the HEAD found there, seals its tree, and looks again. */
  method SealOwn(repo: GitRepo, initialHead: Commit, branch: string, before: Index, prepared: seq<Prepared>)
      returns (why: Option<Blocker>, own: Tree, seed: Commit)
    requires repo.Valid() && DistinctTargets(prepared)
    modifies repo`head, repo`branch, repo`index, repo`working, repo`indexLocked, repo`failures, repo`moves
    ensures repo.Valid() && repo.failures >= old(repo.failures) && repo.moves >= old(repo.moves)
    ensures repo.moves == old(repo.moves) ==> AsAt(repo, old(StartOf(repo)))
    ensures why == None ==> IsTree(own) && OwnTree(seed.tree, prepared, own)
    ensures why == None ==>
      || repo.moves > old(repo.moves) || !old(Still(repo, initialHead, branch, before, prepared))
      || own != initialHead.tree
    ensures why.Some? ==>
      LockedReason(why.value, initialHead.tree, prepared, repo.failures > old(repo.failures),
                   repo.moves > old(repo.moves) || !old(Still(repo, initialHead, branch, before, prepared)))
  {
    repo.Interfere();
    own, seed := map[], repo.head;
    var sealed := StageOwn(repo, seed.tree, prepared);
    if sealed.None? {
      return Some(TemporaryIndexFailed), own, seed;
    }
    own := sealed.value;
    repo.Interfere();
    var compared := repo.Call();
    if !compared || own == repo.head.tree {
      return Some(NoSelectedChanges), own, seed;
    }
    var same := LookAgain(repo, prepared, initialHead, before);
    why := if same then None else Some(SnapshotDrift);
  }

  /** While the real index is locked: seals the own tree and commits it. */
  method CommitUnderLock(repo: GitRepo, initialHead: Commit, branch: string, before: Index, prepared: seq<Prepared>,
                         paths: seq<string>, reconciled: Index, ref: string)
      returns (r: OverlapResult, ghost met: Met)
    requires repo.Valid() && DistinctTargets(prepared) && Reconciled(before, prepared, reconciled)
    requires forall q :: q in paths <==> Targets(prepared, q)
    modifies repo`head, repo`branch, repo`index, repo`working, repo`indexLocked, repo`commits, repo`indexWrites
    modifies repo`failures, repo`moves
    ensures repo.Valid() && repo.failures >= old(repo.failures) && repo.moves >= old(repo.moves)
    ensures r.Blocked? || r.RecoveryRequired? || r == Committed(ref)
    ensures r.Blocked? ==> repo.commits == old(repo.commits) && repo.indexWrites == old(repo.indexWrites)
    ensures r.Blocked? ==>
      LockedReason(r.why, initialHead.tree, prepared, repo.failures > old(repo.failures),
                   repo.moves > old(repo.moves) || !old(Still(repo, initialHead, branch, before, prepared)))
    ensures r.RecoveryRequired? ==>
      || repo.failures > old(repo.failures) || repo.moves > old(repo.moves)
      || !old(Still(repo, initialHead, branch, before, prepared))
    ensures r.Committed? ==> Succeeded(initialHead, before, prepared, met)
    ensures r.Committed? ==> repo.indexWrites == old(repo.indexWrites) + [met.settled]
    ensures r.Committed? ==> FilterUnrelated(repo.index, paths) == FilterUnrelated(before, paths)
    ensures r.Committed? || r.RecoveryRequired? ==>
      old(repo.commits) < repo.commits && |repo.commits| == |old(repo.commits)| + 1
  {
    met := Met(initialHead, initialHead, [], reconciled);
    var why, own, seed := SealOwn(repo, initialHead, branch, before, prepared);
    if why.Some? {
      return Blocked(why.value), met;
    }
    r, met := CommitOwn(repo, initialHead, branch, before, prepared, paths, seed, own, reconciled, ref);
  }

  /** Looks again, saves the pre-existing work, and looks again. */
  method SaveFirst(repo: GitRepo, m: Manifest, prepared: seq<Prepared>, initialHead: Commit, branch: string, before: Index)
      returns (why: Option<Blocker>, ref: string)
    requires repo.Valid() && IsTree(initialHead.tree) && m.baseHead == initialHead
    modifies repo`head, repo`branch, repo`index, repo`working, repo`indexLocked, repo`failures, repo`moves
    modifies repo`refs, repo`checkouts
    ensures repo.Valid() && repo.failures >= old(repo.failures) && repo.moves >= old(repo.moves)
    ensures repo.moves == old(repo.moves) ==> AsAt(repo, old(StartOf(repo)))
    ensures why == None ==> ref !in old(repo.refs) && Saved(repo.refs, ref, m)
    ensures why == None && repo.moves == old(repo.moves) ==> !repo.indexLocked
    ensures why.Some? ==>
      var moved := repo.moves > old(repo.moves) || !old(Still(repo, initialHead, branch, before, prepared));
      || (why.value.GitIndexLock? && (repo.failures > old(repo.failures) || old(repo.indexLocked) || moved))
      || (why.value.SnapshotDrift? && (repo.failures > old(repo.failures) || moved))
      || (why.value.CheckpointCommitFailed?
          && (repo.failures > old(repo.failures) || !CanCheckpoint(m, old(repo.refs), old(repo.checkouts))))
  {
    ref := "";
    repo.Interfere();
    var located := repo.Call();
    if !located || repo.indexLocked {
      return Some(GitIndexLock), ref;
    }
    var same := LookAgain(repo, prepared, initialHead, before);
    if !same {
      return Some(SnapshotDrift), ref;
    }
    var saved, made, _ := CreateCheckpointRef(repo, m);
    ref := made;
    if !saved {
      return Some(CheckpointCommitFailed), ref;
    }
    repo.Interfere();
    var resolved := repo.Call();
    if !resolved || repo.branch != branch || repo.indexLocked {
      return Some(SnapshotDrift), ref;
    }
    same := LookAgain(repo, prepared, initialHead, before);
    why := if same then None else Some(SnapshotDrift);
  }

  /** Prepares the reconciled index, looks again, and takes the lock of the real index. */
  method LockIndex(repo: GitRepo, paths: seq<string>, prepared: seq<Prepared>, initialHead: Commit, before: Index)
      returns (why: Option<Blocker>, reconciled: Index)
    requires repo.Valid() && DistinctTargets(prepared) && forall q :: q in paths <==> Targets(prepared, q)
    requires forall i :: 0 <= i < |prepared| ==> Staged(before, prepared[i].path) == Some(prepared[i].staged)
    modifies repo`head, repo`branch, repo`index, repo`working, repo`indexLocked, repo`failures, repo`moves
    ensures repo.Valid() && repo.failures >= old(repo.failures) && repo.moves >= old(repo.moves)
    ensures repo.moves == old(repo.moves) ==>
      unchanged(repo`head, repo`branch, repo`index, repo`working)
    ensures why == None ==> Reconciled(before, prepared, reconciled) && repo.indexLocked
    ensures why.Some? ==>
      var moved := repo.moves > old(repo.moves) || old(repo.head) != initialHead || old(repo.index) != before
        || old(repo.indexLocked);
      || ((why.value.RestoreFailed? || why.value.IndexUnavailable?) && repo.failures > old(repo.failures))
      || ((why.value.ReconcileFailed? || why.value.PreservationFailed?)
          && (repo.failures > old(repo.failures) || moved || !CanReconcile(before, prepared)))
      || ((why.value.SnapshotDrift? || why.value.GitIndexLock?) && (repo.failures > old(repo.failures) || moved))
  {
    reconciled := before;
    var stored := repo.Call();
    if !stored {
      return Some(RestoreFailed), reconciled;
    }
    repo.Interfere();
    var copied := repo.Call();
    if !copied {
      return Some(IndexUnavailable), reconciled;
    }
    why, reconciled := StageReconciled(repo, repo.index, before, prepared, paths);
    if why.Some? {
      return;
    }
    repo.Interfere();
    var resolved := repo.Call();
    if !resolved || repo.head != initialHead || repo.index != before || repo.indexLocked {
      return Some(SnapshotDrift), reconciled;
    }
    repo.Interfere();
    if repo.indexLocked {
      return Some(GitIndexLock), reconciled;
    }
    repo.indexLocked := true;
    why := None;
  }

  /** Why a commit of a prepared own text was refused. */
  ghost predicate PreparedReason(why: Blocker, s: Start, m: Manifest, prepared: seq<Prepared>, failed: bool, moved: bool) {
    match why
    case GitIndexLock => failed || s.indexLocked || moved
    case CheckpointCommitFailed => failed || !CanCheckpoint(m, s.refs, s.checkouts)
    case RestoreFailed => failed
    case IndexUnavailable => failed
    case ReconcileFailed => failed || moved || !CanReconcile(s.index, prepared)
    case PreservationFailed => failed || moved || !CanReconcile(s.index, prepared)
    case _ => LockedReason(why, s.head.tree, prepared, failed, moved)
  }

  /**
   The part after the own text is separated: checkpoint, both indexes, commit. `s` is the
   start, and the flags say whether a call failed, or others acted, since.
   */
  method CommitPrepared(repo: GitRepo, m: Manifest, paths: seq<string>, prepared: seq<Prepared>, initialHead: Commit,
                        branch: string, before: Index, ghost s: Start, ghost failed: bool, ghost moved: bool)
      returns (r: OverlapResult, ghost met: Met)
    requires repo.Valid() && IsTree(initialHead.tree) && m.baseHead == initialHead
    requires DistinctTargets(prepared) && forall q :: q in paths <==> Targets(prepared, q)
    requires forall i :: 0 <= i < |prepared| ==> Staged(before, prepared[i].path) == Some(prepared[i].staged)
    requires s.head == initialHead && s.index == before && s.branch == branch
    requires s.refs == repo.refs && s.checkouts == repo.checkouts
    requires moved || (AsAt(repo, s) && FinalsIn(repo.working, prepared))
    modifies repo`head, repo`branch, repo`index, repo`working, repo`indexLocked, repo`commits, repo`indexWrites
    modifies repo`refs, repo`checkouts, repo`failures, repo`moves
    ensures repo.Valid() && !r.Preview? && repo.failures >= old(repo.failures) && repo.moves >= old(repo.moves)
    ensures r.Blocked? ==> repo.commits == old(repo.commits) && repo.indexWrites == old(repo.indexWrites)
    ensures r.Blocked? ==>
      PreparedReason(r.why, s, m, prepared, failed || repo.failures > old(repo.failures),
                     moved || repo.moves > old(repo.moves))
    ensures r.RecoveryRequired? ==> repo.failures > old(repo.failures) || moved || repo.moves > old(repo.moves)
    ensures r.Committed? ==> Succeeded(initialHead, before, prepared, met)
    ensures r.Committed? ==> repo.indexWrites == old(repo.indexWrites) + [met.settled]
    ensures r.Committed? ==> FilterUnrelated(repo.index, paths) == FilterUnrelated(before, paths)
    ensures r.Committed? ==> r.ref !in old(repo.refs) && Saved(repo.refs, r.ref, m)
    ensures r.Committed? || r.RecoveryRequired? ==>
      old(repo.commits) < repo.commits && |repo.commits| == |old(repo.commits)| + 1
  {
    met := Met(initialHead, initialHead, [], before);
    var why, ref := SaveFirst(repo, m, prepared, initialHead, branch, before);
    if why.Some? {
      return Blocked(why.value), met;
    }
    var reconciled;
    why, reconciled := LockIndex(repo, paths, prepared, initialHead, before);
    if why.Some? {
      return Blocked(why.value), met;
    }
    r, met := CommitUnderLock(repo, initialHead, branch, before, prepared, paths, reconciled, ref);
    repo.indexLocked := false;
  }

  ghost predicate TextReason(s: Start, tools: Tools, m: Manifest, prepared: seq<Prepared>, failed: bool, moved: bool) {
    failed || moved || !AllReady(tools, m.paths, s.working) || !NoSecret(tools, prepared)
  }

  /** Why the capture does not allow the commit. */
  ghost predicate CaptureReason(why: Blocker, s: Start, manifest: Option<Manifest>, id: string, paths: seq<string>,
                                failed: bool)
  {
    match why
    case CheckpointMissing => manifest.None?
    case ProtectedBranch => failed || !OwnedBranch(s.branch)
    case StaleBaseHead => manifest.Some? && !CapturedHere(manifest.value, id, s.branch, s.head)
    case ScopeMismatch => manifest.Some? && !CapturedScope(manifest.value, paths)
    case StagedContamination => manifest.Some? && (failed || !CapturedIndex(manifest.value, s.index))
    case SecretRulesUnavailable => failed
    case _ => false
  }

  /** Why a run was refused after its capture was checked. */
  ghost predicate SeparatedReason(why: Blocker, s: Start, tools: Tools, m: Manifest, prepared: seq<Prepared>, failed: bool,
                                  moved: bool)
  {
    || (IsTextual(why) && TextReason(s, tools, m, prepared, failed, moved))
    || (why.NoSelectedChanges? && !OwnChange(prepared))
    || PreparedReason(why, s, m, prepared, failed, moved)
  }

  /** Why a run was refused. */
  ghost predicate Reasoned(why: Blocker, s: Start, tools: Tools, manifest: Option<Manifest>, id: string, paths: seq<string>,
                           prepared: seq<Prepared>, failed: bool, moved: bool)
  {
    || CaptureReason(why, s, manifest, id, paths, failed)
    || (manifest.Some? && SeparatedReason(why, s, tools, manifest.value, prepared, failed, moved))
  }

  /** The first reason in the capture to refuse the commit, if any. */
  method CheckCapture(repo: GitRepo, manifest: Option<Manifest>, id: string, paths: seq<string>)
      returns (why: Option<Blocker>)
    modifies repo`failures
    ensures repo.failures >= old(repo.failures)
    ensures why == None ==> manifest.Some? && OwnedBranch(repo.branch)
    ensures why == None ==> DescribesCapture(manifest.value, id, repo.branch, repo.head, paths, repo.index)
    ensures why.Some? ==>
      CaptureReason(why.value, old(StartOf(repo)), manifest, id, paths, repo.failures > old(repo.failures))
  {
    if manifest.None? {
      return Some(CheckpointMissing);
    }
    var resolved := repo.Call();
    if !resolved || !OwnedBranch(repo.branch) {
      return Some(ProtectedBranch);
    }
    if !CapturedHere(manifest.value, id, repo.branch, repo.head) {
      return Some(StaleBaseHead);
    }
    if !CapturedScope(manifest.value, paths) {
      return Some(ScopeMismatch);
    }
    var listed := repo.Call();
    if !listed || !CapturedIndex(manifest.value, repo.index) {
      return Some(StagedContamination);
    }
    var ruled := repo.Call();
    return if ruled then None else Some(SecretRulesUnavailable);
  }

  /** Separates the own text, which must come without secrets. */
  method SeparateAll(repo: GitRepo, tools: Tools, m: Manifest)
      returns (why: Option<Blocker>, prepared: seq<Prepared>, ghost looks: seq<Looks>)
    requires repo.Valid()
    modifies repo`head, repo`branch, repo`index, repo`working, repo`indexLocked, repo`failures, repo`moves
    ensures repo.Valid() && repo.failures >= old(repo.failures) && repo.moves >= old(repo.moves)
    ensures repo.moves == old(repo.moves) ==> AsAt(repo, old(StartOf(repo)))
    ensures why == None ==> AllPrepared(tools, m.paths, looks, prepared) && OwnChange(prepared) && NoSecret(tools, prepared)
    ensures why == None && repo.moves == old(repo.moves) ==> FinalsIn(old(repo.working), prepared)
    ensures why.Some? ==>
      SeparatedReason(why.value, old(StartOf(repo)), tools, m, prepared,
                      repo.failures > old(repo.failures), repo.moves > old(repo.moves))
  {
    why, prepared, looks := PrepareOwnOverlap(repo, tools, m.paths);
    if why.Some? {
      return;
    }
    if !NoSecret(tools, prepared) {
      return Some(SecretDetected), prepared, looks;
    }
    QuietFinals(tools, m.paths, looks, prepared, old(repo.working));
  }

  /** The part after the capture is checked: separation and commit. */
  method CommitCaptured(repo: GitRepo, tools: Tools, m: Manifest, id: string, paths: seq<string>, dryRun: bool)
      returns (r: OverlapResult, prepared: seq<Prepared>, ghost looks: seq<Looks>, ghost met: Met)
    requires repo.Valid() && forall i, j :: 0 <= i < j < |paths| ==> paths[i] != paths[j]
    requires DescribesCapture(m, id, repo.branch, repo.head, paths, repo.index)
    modifies repo
    ensures repo.Valid() && repo.failures >= old(repo.failures) && repo.moves >= old(repo.moves)
    ensures r.Blocked? || r.Preview? ==>
      repo.commits == old(repo.commits) && repo.indexWrites == old(repo.indexWrites)
    ensures r.Blocked? ==>
      SeparatedReason(r.why, old(StartOf(repo)), tools, m, prepared,
                      repo.failures > old(repo.failures), repo.moves > old(repo.moves))
    ensures r.RecoveryRequired? ==> repo.failures > old(repo.failures) || repo.moves > old(repo.moves)
    ensures (r.Preview? ==> dryRun) && (r.Committed? || r.RecoveryRequired? ==> !dryRun)
    ensures r.Committed? || r.Preview? ==>
      AllPrepared(tools, m.paths, looks, prepared) && OwnChange(prepared) && NoSecret(tools, prepared)
    ensures r.Committed? ==> Succeeded(old(repo.head), old(repo.index), prepared, met)
    ensures r.Committed? ==> repo.indexWrites == old(repo.indexWrites) + [met.settled]
    ensures r.Committed? ==> FilterUnrelated(repo.index, paths) == FilterUnrelated(old(repo.index), paths)
    ensures r.Committed? ==> r.ref !in old(repo.refs) && Saved(repo.refs, r.ref, m)
    ensures r.Committed? || r.RecoveryRequired? ==>
      old(repo.commits) < repo.commits && |repo.commits| == |old(repo.commits)| + 1
  {
    met := Met(repo.head, repo.head, [], repo.index);
    var initialHead, branch, before := repo.head, repo.branch, repo.index;
    var why;
    why, prepared, looks := SeparateAll(repo, tools, m);
    if why.Some? {
      return Blocked(why.value), prepared, looks, met;
    }
    if dryRun {
      return Preview, prepared, looks, met;
    }
    CapturedTargets(m, paths, prepared, tools, looks, before);
    r, met := CommitPrepared(repo, m, paths, prepared, initialHead, branch, before, old(StartOf(repo)),
                             repo.failures > old(repo.failures), repo.moves > old(repo.moves));
  }

  /** Others may act at any time after the first reads. */
  method RunCooperativeOverlapCommit(repo: GitRepo, tools: Tools, manifest: Option<Manifest>, id: string,
                                     paths: seq<string>, dryRun: bool)
      returns (r: OverlapResult, prepared: seq<Prepared>, ghost looks: seq<Looks>, ghost met: Met)
    requires repo.Valid() && forall i, j :: 0 <= i < j < |paths| ==> paths[i] != paths[j]
    modifies repo
    ensures repo.Valid()
    // Every failure before the commit leaves HEAD and the real index to the others, and has a reason.
    ensures r.Blocked? || r.Preview? ==>
      repo.commits == old(repo.commits) && repo.indexWrites == old(repo.indexWrites)
    ensures r.Blocked? ==>
      Reasoned(r.why, old(StartOf(repo)), tools, manifest, id, paths, prepared,
               repo.failures > old(repo.failures), repo.moves > old(repo.moves))
    ensures r.RecoveryRequired? ==> repo.failures > old(repo.failures) || repo.moves > old(repo.moves)
    ensures (r.Preview? ==> dryRun) && (r.Committed? || r.RecoveryRequired? ==> !dryRun)
    ensures r.Committed? || r.Preview? ==>
      manifest.Some? && DescribesCapture(manifest.value, id, old(repo.branch), old(repo.head), paths, old(repo.index))
    ensures r.Committed? || r.Preview? ==> OwnedBranch(old(repo.branch)) && NoSecret(tools, prepared)
    ensures r.Committed? || r.Preview? ==>
      AllPrepared(tools, manifest.value.paths, looks, prepared) && OwnChange(prepared)
    ensures r.Committed? ==> Succeeded(old(repo.head), old(repo.index), prepared, met)
    ensures r.Committed? ==> repo.indexWrites == old(repo.indexWrites) + [met.settled]
    ensures r.Committed? ==> FilterUnrelated(repo.index, paths) == FilterUnrelated(old(repo.index), paths)
    ensures r.Committed? ==> r.ref !in old(repo.refs) && Saved(repo.refs, r.ref, manifest.value)
    // One commit of ours, and after it every failure asks for recovery.
    ensures r.Committed? || r.RecoveryRequired? ==>
      old(repo.commits) < repo.commits && |repo.commits| == |old(repo.commits)| + 1
  {
    prepared, looks, met := [], [], Met(repo.head, repo.head, [], repo.index);
    var why := CheckCapture(repo, manifest, id, paths);
    if why.Some? {
      return Blocked(why.value), prepared, looks, met;
    }
    r, prepared, looks, met := CommitCaptured(repo, tools, manifest.value, id, paths, dryRun);
  }

  lemma QuietFinals(tools: Tools, entries: seq<Captured>, looks: seq<Looks>, prepared: seq<Prepared>, working: Tree)
    requires AllPrepared(tools, entries, looks, prepared)
    ensures (forall i :: 0 <= i < |looks| ==> looks[i] == Looks(working, working)) ==> FinalsIn(working, prepared)
  {
    if forall i :: 0 <= i < |looks| ==> looks[i] == Looks(working, working) {
      forall i | 0 <= i < |prepared| ensures At(working, prepared[i].path) == Some(prepared[i].final) {
        assert PreparedFrom(entries[i], looks[i], prepared[i]);
      }
    }
  }

  /** Nothing in the repository or the texts stands in the way. */
  ghost predicate Clear(s: Start, tools: Tools, manifest: Option<Manifest>, id: string, paths: seq<string>,
                        prepared: seq<Prepared>)
  {
    && manifest.Some? && OwnedBranch(s.branch) && DescribesCapture(manifest.value, id, s.branch, s.head, paths, s.index)
    && AllReady(tools, manifest.value.paths, s.working) && NoSecret(tools, prepared) && OwnChange(prepared)
    && !s.indexLocked && CanCheckpoint(manifest.value, s.refs, s.checkouts) && CanReconcile(s.index, prepared)
    && OwnFits(s.head.tree, prepared) && !OwnTree(s.head.tree, prepared, s.head.tree)
  }

  lemma ClearCapture(why: Blocker, s: Start, m: Manifest, id: string, paths: seq<string>)
    requires OwnedBranch(s.branch) && DescribesCapture(m, id, s.branch, s.head, paths, s.index)
    ensures !CaptureReason(why, s, Some(m), id, paths, false)
  {
  }

  lemma ClearPrepared(why: Blocker, s: Start, m: Manifest, prepared: seq<Prepared>)
    requires !s.indexLocked && CanCheckpoint(m, s.refs, s.checkouts) && CanReconcile(s.index, prepared)
    requires OwnFits(s.head.tree, prepared) && !OwnTree(s.head.tree, prepared, s.head.tree)
    ensures !PreparedReason(why, s, m, prepared, false, false)
  {
  }

  /** When no call fails and nobody else acts, a run for which all is clear is not refused. */
  lemma QuietRunIsNotRefused(why: Blocker, s: Start, tools: Tools, manifest: Option<Manifest>, id: string,
                             paths: seq<string>, prepared: seq<Prepared>)
    requires Clear(s, tools, manifest, id, paths, prepared)
    ensures !Reasoned(why, s, tools, manifest, id, paths, prepared, false, false)
  {
    ClearCapture(why, s, manifest.value, id, paths);
    ClearPrepared(why, s, manifest.value, prepared);
  }

  // ---------------------------------------------------------------- what a success means

  /** Two trees have the same files outside the captured paths. */
  ghost predicate SameOffCapture(t: Tree, u: Tree, prepared: seq<Prepared>) {
    forall q :: !Targets(prepared, q) ==> At(t, q) == At(u, q)
  }

  /**
   A success is the commit that was asked for if and only if the HEAD that seeded the
   own index has the base's files outside the captured paths. Nothing compares them:
   HEAD is only compared before and after.
   */
  lemma OwnCommittedIffSeedAgrees(head: Commit, before: Index, prepared: seq<Prepared>, met: Met)
    requires Succeeded(head, before, prepared, met)
    ensures OwnCommitted(head, prepared, met.made) <==> SameOffCapture(met.seed.tree, head.tree, prepared)
    ensures forall q :: !Targets(prepared, q) ==>
      (At(met.made.tree, q) != At(head.tree, q) <==> At(met.seed.tree, q) != At(head.tree, q))
  {
    if OwnCommitted(head, prepared, met.made) {
      forall q | !Targets(prepared, q) ensures At(met.seed.tree, q) == At(head.tree, q) {
        assert At(met.made.tree, q) == At(met.seed.tree, q);
      }
    }
  }

  /** The own commit is no empty one: it changes some captured path of the base. */
  lemma OwnChangesBase(tools: Tools, m: Manifest, looks: seq<Looks>, prepared: seq<Prepared>, head: Commit,
                       before: Index, met: Met)
    requires AllPrepared(tools, m.paths, looks, prepared) && RecordsHead(m, head) && OwnChange(prepared)
    requires Succeeded(head, before, prepared, met)
    ensures exists q :: Targets(prepared, q) && At(met.made.tree, q) != At(head.tree, q)
  {
    var i :| 0 <= i < |prepared| && prepared[i].own != prepared[i].head.text;
    var p := prepared[i];
    assert PreparedFrom(m.paths[i], looks[i], p) && Targets(prepared, p.path);
    assert At(met.made.tree, p.path) == Some(File(p.head.mode, p.own));
  }

  /** Merging the checkpoint's version of a path and the own commit over their common base. */
  function Recovered(tools: Tools, saved: Tree, head: Tree, own: Tree, path: string): Option<string>
    requires path in saved && path in head && path in own
  {
    tools.merge(tools.clean(path, saved[path].text), head[path].text, own[path].text)
  }

  /**
   The checkpoint and the own commit together give the text that the second read saw,
   and the own commit keeps the modes. So nothing is lost, and they give the text in
   the working tree, if and only if the file cleaned to the same text at both looks.
   */
  lemma FinalTextRecoverable(tools: Tools, m: Manifest, looks: seq<Looks>, prepared: seq<Prepared>, head: Commit,
                             before: Index, met: Met, refs: map<string, Commit>, ref: string, i: nat)
    requires AllPrepared(tools, m.paths, looks, prepared) && RecordsHead(m, head)
    requires Succeeded(head, before, prepared, met) && Saved(refs, ref, m) && i < |m.paths|
    ensures var path := m.paths[i].path;
      && path in refs[ref].tree && path in head.tree && path in met.made.tree && path in met.kept[i]
      && met.made.tree[path].mode == head.tree[path].mode && met.kept[i][path] == looks[i].first[path]
      && Recovered(tools, refs[ref].tree, head.tree, met.made.tree, path)
         == Some(tools.clean(path, looks[i].second[path].text))
      && (Recovered(tools, refs[ref].tree, head.tree, met.made.tree, path) == Some(tools.clean(path, met.kept[i][path].text))
          <==> tools.clean(path, looks[i].second[path].text) == tools.clean(path, looks[i].first[path].text))
  {
    var p := prepared[i];
    assert PreparedFrom(m.paths[i], looks[i], p) && Separated(tools, p);
    assert At(refs[ref].tree, p.path) == Version(m.paths[i], WorkingPhase);
    assert At(met.made.tree, p.path) == Some(File(p.head.mode, p.own));
    assert At(met.kept[i], p.path) == Some(p.final);
  }

  // ---------------------------------------------------------------- two runs that succeed

  /** A merge that knows only the plain cases: one side did not change. */
  function PlainMerge(current: string, base: string, other: string): Option<string> {
    if current == base then Some(other) else if other == base then Some(current) else None
  }

  function PlainTools(): Tools {
    Tools(PlainMerge, (path: string, text: string) => text, (path: string, text: string) => false, (text: string) => false)
  }

  /**
   `a` was captured with another mode staged, and its text then changed: what the
   separation prepares when the two looks see `seen` and `read`.
   */
  function PreparedA(text: string, seen: string, read: string): Prepared {
    Prepared("a", File(Regular, text), File(Executable, text), File(Executable, text), File(Executable, seen), read,
             read, read)
  }

  lemma PreparesA(text: string, seen: string, read: string) returns (e: Captured, looks: Looks)
    requires read != text
    ensures e == Captured("a", Some(File(Regular, text)), Some(File(Executable, text)), Some(File(Executable, text)),
                          Some(Record(File(Executable, text), 'H')))
    ensures looks == Looks(map["a" := File(Executable, seen)], map["a" := File(Executable, read)])
    ensures AllPrepared(PlainTools(), [e], [looks], [PreparedA(text, seen, read)])
    ensures forall q :: Targets([PreparedA(text, seen, read)], q) <==> q == "a"
  {
    var p := PreparedA(text, seen, read);
    e := Captured("a", Some(p.head), Some(p.staged), Some(p.working), Some(Record(p.staged, 'H')));
    looks := Looks(map["a" := File(Executable, seen)], map["a" := File(Executable, read)]);
    assert PreparedFrom(e, looks, p) && Separated(PlainTools(), p);
    assert [p][0].path == "a";
  }

  /**
   Another program moves the branch while the own index is seeded and moves it back
   before the compare: the command succeeds, and its commit carries the other
   program's `b` on top of the captured base.
   */
  lemma OwnCarriesForeign(text: string, mine: string, foreign: File) returns (met: Met)
    requires mine != text && foreign != File(Regular, text)
    ensures var head, before := Root(map["a" := File(Regular, text), "b" := File(Regular, text)]),
        map["a" := Record(File(Executable, text), 'H'), "b" := Record(File(Regular, text), 'H')];
      && Succeeded(head, before, [PreparedA(text, mine, mine)], met)
      && !OwnCommitted(head, [PreparedA(text, mine, mine)], met.made)
      && At(met.made.tree, "b") == Some(foreign)
  {
    var prepared := [PreparedA(text, mine, mine)];
    var _, _ := PreparesA(text, mine, mine);
    var base: Tree := map["a" := File(Regular, text), "b" := File(Regular, text)];
    var seed: Tree, made: Tree := base["b" := foreign], map["a" := File(Regular, mine), "b" := foreign];
    var before: Index :=
      map["a" := Record(File(Executable, text), 'H'), "b" := Record(File(Regular, text), 'H')];
    met := Met(Root(seed), Commit(Root(base), made), [map["a" := File(Executable, mine)]],
               before["a" := Record(File(Executable, mine), 'H')]);
    assert OwnTree(seed, prepared, made);
    assert Reconciled(before, prepared, met.settled);
    assert !Targets(prepared, "b") && At(made, "b") != At(base, "b");
  }

  /**
   Another program edits `a` between the two looks and takes the edit back: the command
   succeeds, and its commit has the text of that edit.
   */
  lemma OwnFromOtherEdit(text: string, mine: string, passing: string)
      returns (m: Manifest, looks: seq<Looks>, met: Met, refs: map<string, Commit>)
    requires passing != text && passing != mine
    ensures var head, prepared := Root(map["a" := File(Regular, text)]), [PreparedA(text, mine, passing)];
      && AllPrepared(PlainTools(), m.paths, looks, prepared) && RecordsHead(m, head)
      && Succeeded(head, map["a" := Record(File(Executable, text), 'H')], prepared, met)
      && OwnCommitted(head, prepared, met.made) && Saved(refs, "ref", m)
      && At(met.made.tree, "a") == Some(File(Regular, passing)) && At(met.kept[0], "a") == Some(File(Executable, mine))
  {
    var prepared := [PreparedA(text, mine, passing)];
    var e, seen := PreparesA(text, mine, passing);
    var base: Tree, made: Tree := map["a" := File(Regular, text)], map["a" := File(Regular, passing)];
    var before: Index := map["a" := Record(File(Executable, text), 'H')];
    m := Manifest("1", "refs/heads/codex/a", Root(base), true, [e]);
    looks := [seen];
    refs := map["ref" := Commit(Root(base), map["a" := File(Executable, text)])];
    met := Met(Root(base), Commit(Root(base), made), [map["a" := File(Executable, mine)]],
               before["a" := Record(File(Executable, passing), 'H')]);
    assert OwnTree(base, prepared, made);
    assert Reconciled(before, prepared, met.settled);
    assert Captures(m.paths, "a") by { assert m.paths[0].path == "a"; }
  }
}
