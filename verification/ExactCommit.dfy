/**
 Committing exactly the selected paths through a temporary index, so that whatever
 else is staged stays staged and uncommitted.
 */
module ExactCommit {
  import opened Common
  import opened Text
  import opened PathSelectors
  import opened GitTree
  import opened GitRepository

  datatype Blocker =
    | InvalidExactPath | QueueLocked | QueueLockFailed | QueueStateInvalid
    | OtherActiveBatch | BatchScopeMismatch | BatchMismatch | StaleQueueBatch
    | IndexPathUnavailable | GitIndexLock | HeadUnavailable | StaleBaseHead | UnmergedIndex
    | IndexReadFailed | StatusFailed | TemporaryIndexFailed | ExactStageFailed | NoSelectedChanges
    | PrecommitRecheckFailed | StagedContamination | GitCommitFailed
    | IndexReconcileFailed | StagedPreservationFailed | CommitReceiptFailed

  /** `Failed` is an error after the commit was made. */
  datatype ExactResult = Blocked(why: Blocker) | Preview(included: set<string>) | Committed(included: set<string>)
                       | Failed(why: Blocker)

  function ChangedPaths(before: Tree, after: Tree): set<string> {
    set q | q in before.Keys + after.Keys && At(before, q) != At(after, q)
  }

  // ---------------------------------------------------------------- selecting paths

  predicate InIndex(index: Index, path: string) {
    exists q :: q in index && CoveredBy(path, q)
  }

  predicate TrackedGitlink(index: Index, path: string) {
    path in index && index[path].file.mode == Gitlink
  }

  /** A file, a tracked gitlink, or something tracked that is gone; not a directory. */
  predicate Selectable(index: Index, working: Tree, path: string) {
    && !IsDirectory(working, path) && (path in working || InIndex(index, path))
    && (path in working && working[path].mode == Gitlink ==> TrackedGitlink(index, path))
  }

  /** No selector is empty, the order test passes, and each can be selected. */
  ghost predicate AllSelectable(index: Index, working: Tree, selectors: seq<string>) {
    && (forall i :: 0 <= i < |selectors| ==> selectors[i] != [])
    && !Duplicate(selectors) && !ExposedOverlap(selectors)
    && forall p :: p in selectors ==> Selectable(index, working, p)
  }

  /** Not empty, sorted, free of neighbouring overlaps, and each a file of the working tree or a tracked deletion. */
  method NormalizePaths(repo: GitRepo, selectors: seq<string>) returns (r: Option<seq<string>>)
    ensures r.Some? <==> AllSelectable(repo.index, repo.working, selectors)
    ensures r.Some? ==> StrictlySorted(r.value) && multiset(r.value) == multiset(selectors)
    ensures r.Some? ==> SelectsFiles(repo.working, r.value)
  {
    for i := 0 to |selectors|
      invariant forall k :: 0 <= k < i ==> selectors[k] != []
    {
      if selectors[i] == [] {
        return None;
      }
    }
    var sorted := SortSelectors(selectors);
    if sorted == None {
      return None;
    }
    var paths := sorted.value;
    SameSelectors(selectors, paths);
    for i := 0 to |paths|
      invariant forall k :: 0 <= k < i ==> Selectable(repo.index, repo.working, paths[k])
    {
      if !Selectable(repo.index, repo.working, paths[i]) {
        assert paths[i] in selectors;
        return None;
      }
    }
    forall p | p in selectors ensures Selectable(repo.index, repo.working, p) {
      var k :| 0 <= k < |paths| && paths[k] == p;
    }
    return Some(paths);
  }

  // ---------------------------------------------------------------- the isolated index

  /** Sorts the paths into those HEAD knows and new ones. */
  method ClassifyPaths(repo: GitRepo, head: Tree, paths: seq<string>)
      returns (ok: bool, tracked: seq<string>, added: seq<string>)
    modifies repo`failures
    ensures repo.failures >= old(repo.failures) && (ok <==> repo.failures == old(repo.failures))
    ensures ok ==> tracked == TrackedPaths(head, paths) && added == NewPaths(head, paths)
  {
    tracked, added := [], [];
    for i := 0 to |paths|
      invariant tracked == TrackedPaths(head, paths[..i]) && added == NewPaths(head, paths[..i])
      invariant repo.failures == old(repo.failures)
    {
      assert paths[..i + 1][..i] == paths[..i];
      var listed := repo.Call();
      if !listed {
        return false, tracked, added;
      }
      if Tracked(head, paths[i]) {
        tracked := tracked + [paths[i]];
      } else {
        added := added + [paths[i]];
      }
    }
    assert paths[..|paths|] == paths;
    return true, tracked, added;
  }

  /** The tree of the temporary index after staging the selected paths on top of HEAD. */
  method StageExactPaths(repo: GitRepo, head: Tree, working: Tree, paths: seq<string>) returns (staged: Option<Tree>)
    requires IsTree(head) && IsTree(working) && SelectsFiles(working, paths)
    modifies repo`failures
    ensures repo.failures >= old(repo.failures)
    ensures staged.None? && repo.failures == old(repo.failures) ==> !Stageable(head, working, paths)
    ensures staged.Some? ==> Stageable(head, working, paths) && staged.value == StagedTree(head, working, paths)
    ensures staged.Some? ==> IsTree(staged.value)
  {
    var ok, tracked, added := ClassifyPaths(repo, head, paths);
    if !ok {
      return None;
    }
    var tree := head;
    UpdateNothing(head, working);
    if tracked != [] {
      var updated := repo.Call();
      if !updated {
        return None;
      }
      tree := UpdateTracked(head, working, tracked);
    }
    StagedIsTree(tree, working, []);
    if added != [] {
      var done := repo.Call();
      if !done || exists i :: 0 <= i < |added| && added[i] !in working {
        return None;
      }
      StagedIsTree(tree, working, added);
      tree := AddAllNew(tree, working, added);
    }
    return Some(tree);
  }

  /**
   What Git met on the way: HEAD when the temporary index was seeded, HEAD when
   `git commit` read it, the commit made, HEAD and the index when `git reset` read
   them, and the index the reset wrote.
   */
  datatype Met = Met(seed: Commit, parent: Commit, made: Commit, resetHead: Commit, resetIndex: Index, settled: Index)

  /** The commit that a run makes, whatever the others did meanwhile. */
  ghost predicate Makes(working: Tree, paths: seq<string>, met: Met, made: Commit) {
    && Stageable(met.seed.tree, working, paths)
    && made == Commit(met.parent, StagedTree(met.seed.tree, working, paths))
    && made.tree != met.seed.tree && made.tree != met.parent.tree
  }

  /** What a successful run leaves. */
  ghost predicate Succeeded(index: Index, working: Tree, paths: seq<string>, met: Met, made: Commit, indexAfter: Index) {
    && Makes(working, paths, met, made)
    && met.settled == ResetPaths(met.resetIndex, met.resetHead.tree, paths)
    && FilterUnrelated(indexAfter, paths) == FilterUnrelated(index, paths)
  }

  /** What the caller asked for: the selection of this HEAD's tree, on this HEAD. */
  ghost predicate CommittedExactly(head: Commit, working: Tree, paths: seq<string>, made: Commit) {
    Stageable(head.tree, working, paths) && made == Commit(head, StagedTree(head.tree, working, paths))
  }

  /** The selected entries are as committed. */
  ghost predicate Settles(index: Index, made: Commit, paths: seq<string>) {
    forall p :: p in paths ==> Staged(index, p) == At(made.tree, p)
  }

  /** The commit declares the active batch, stays within its files, and is made where it was planned. */
  predicate BatchAllows(active: Option<ActiveBatch>, queueBatch: string, paths: seq<string>, head: Commit) {
    match active
    case None => queueBatch == ""
    case Some(b) => queueBatch == b.id && b.baseHead == head && forall i :: 0 <= i < |paths| ==> paths[i] in b.files
  }

  /** What the queue state must be like for this reason. */
  predicate BatchRefuses(why: Blocker, active: Option<ActiveBatch>, queueBatch: string, paths: seq<string>) {
    match why
    case BatchMismatch => active.None? && queueBatch != ""
    case OtherActiveBatch => active.Some? && queueBatch != active.value.id
    case BatchScopeMismatch => active.Some? && exists i :: 0 <= i < |paths| && paths[i] !in active.value.files
    case _ => false
  }

  /** The first reason in the queue state to refuse the paths, if any. */
  method CheckBatch(active: Option<ActiveBatch>, queueBatch: string, paths: seq<string>) returns (why: Option<Blocker>)
    ensures why == None <==>
      if active.None? then queueBatch == ""
      else queueBatch == active.value.id && forall i :: 0 <= i < |paths| ==> paths[i] in active.value.files
    ensures why.Some? ==> BatchRefuses(why.value, active, queueBatch, paths)
  {
    if active == None {
      return if queueBatch != "" then Some(BatchMismatch) else None;
    }
    if queueBatch != active.value.id {
      return Some(OtherActiveBatch);
    }
    for i := 0 to |paths|
      invariant forall k :: 0 <= k < i ==> paths[k] in active.value.files
    {
      if paths[i] !in active.value.files {
        return Some(BatchScopeMismatch);
      }
    }
    return None;
  }

  /** What the commit command sees of the repository. */
  datatype State = State(head: Commit, index: Index, working: Tree, queueLocked: bool, active: Option<ActiveBatch>,
                         indexLocked: bool, unmerged: bool)

  ghost function StateOf(repo: GitRepo): State
    reads repo
  {
    State(repo.head, repo.index, repo.working, repo.queueLocked, repo.active, repo.indexLocked, repo.unmerged)
  }

  /** What the command was asked for. */
  datatype Request = Request(selectors: seq<string>, queueBatch: string, expectedHead: Option<Commit>, dryRun: bool)

  /** What the repository must look like for a commit of the paths to be made at all. */
  ghost predicate Committable(s: State, o: Request, paths: seq<string>) {
    && !s.indexLocked && !s.unmerged && (o.expectedHead.Some? ==> o.expectedHead.value == s.head)
    && BatchAllows(s.active, o.queueBatch, paths, s.head)
  }

  /** What the repository must be like for this reason to refuse the commit before anything is staged. */
  ghost predicate Refuses(why: Blocker, s: State, o: Request, paths: seq<string>) {
    match why
    case GitIndexLock => s.indexLocked
    case StaleBaseHead => o.expectedHead.Some? && o.expectedHead.value != s.head
    case StaleQueueBatch => s.active.Some? && s.active.value.baseHead != s.head
    case UnmergedIndex => s.unmerged
    case _ => BatchRefuses(why, s.active, o.queueBatch, paths)
  }

  /** Only a failed call leads to this reason. */
  predicate IsCallFailure(why: Blocker) {
    || why.QueueLockFailed? || why.QueueStateInvalid? || why.IndexPathUnavailable? || why.HeadUnavailable?
    || why.IndexReadFailed? || why.StatusFailed? || why.TemporaryIndexFailed? || why.PrecommitRecheckFailed?
    || why.IndexReconcileFailed? || why.CommitReceiptFailed?
  }

  /** The first reason to refuse the commit, if any. */
  method CheckCommittable(repo: GitRepo, o: Request, paths: seq<string>) returns (why: Option<Blocker>)
    modifies repo`failures
    ensures repo.failures >= old(repo.failures)
    ensures why == None ==> Committable(StateOf(repo), o, paths) && repo.failures == old(repo.failures)
    ensures why.Some? ==>
      || Refuses(why.value, StateOf(repo), o, paths)
      || (IsCallFailure(why.value) && repo.failures > old(repo.failures))
  {
    var loaded := repo.Call();
    if !loaded {
      return Some(QueueStateInvalid);
    }
    var refused := CheckBatch(repo.active, o.queueBatch, paths);
    if refused != None {
      return refused;
    }
    var located := repo.Call();
    if !located {
      return Some(IndexPathUnavailable);
    }
    if repo.indexLocked {
      return Some(GitIndexLock);
    }
    var resolved := repo.Call();
    if !resolved {
      return Some(HeadUnavailable);
    }
    if o.expectedHead.Some? && repo.head != o.expectedHead.value {
      return Some(StaleBaseHead);
    }
    if repo.active.Some? && repo.active.value.baseHead != repo.head {
      return Some(StaleQueueBatch);
    }
    var listed := repo.Call();
    if !listed {
      return Some(IndexReadFailed);
    }
    if repo.unmerged {
      return Some(UnmergedIndex);
    }
    return None;
  }

  /** What staging on this HEAD must come to for this reason. */
  ghost predicate StagingRefuses(why: Blocker, head: Tree, working: Tree, paths: seq<string>) {
    match why
    case ExactStageFailed => !Stageable(head, working, paths)
    case NoSelectedChanges => Stageable(head, working, paths) && StagedTree(head, working, paths) == head
    case _ => false
  }

  /** A failed call, or other programs, lead to this reason. */
  predicate Disturbed(why: Blocker, failed: bool, moved: bool) {
    if IsCallFailure(why) then failed
    else match why
      case ExactStageFailed => failed || moved
      case GitCommitFailed => failed || moved
      case NoSelectedChanges => moved
      case StaleBaseHead => moved
      case StagedContamination => moved
      case StagedPreservationFailed => failed || moved
      case _ => false
  }

  /** The reset after the commit would touch records of paths outside the selection. */
  ghost predicate ResetDisturbs(head: Tree, index: Index, working: Tree, paths: seq<string>) {
    && Stageable(head, working, paths)
    && FilterUnrelated(ResetPaths(index, StagedTree(head, working, paths), paths), paths) != FilterUnrelated(index, paths)
  }

  /** One record that the reset leaves alone. */
  predicate ResetSpares(index: Index, tree: Tree, paths: seq<string>, q: string) {
    if Covered(paths, q) then Staged(index, q) == At(tree, q) else q in index ==> !InTheWay(index, tree, paths, q)
  }

  lemma SparedRecord(index: Index, tree: Tree, paths: seq<string>, q: string)
    ensures ResetSpares(index, tree, paths, q) <==>
      var after := ResetPaths(index, tree, paths);
      (q in after <==> q in index) && (q in index && q in after ==> after[q] == index[q])
  {
  }

  /**
   The reset keeps all unselected records if and only if those below a selected path are
   as committed, and none stands where a committed path needs a directory.
   */
  lemma ResetKeepsUnselectedIff(index: Index, tree: Tree, paths: seq<string>)
    ensures FilterUnrelated(ResetPaths(index, tree, paths), paths) == FilterUnrelated(index, paths) <==>
      forall q :: q !in paths ==> ResetSpares(index, tree, paths, q)
  {
    var after := ResetPaths(index, tree, paths);
    forall q ensures ResetSpares(index, tree, paths, q) <==>
      (q in after <==> q in index) && (q in index && q in after ==> after[q] == index[q])
    {
      SparedRecord(index, tree, paths, q);
    }
    if FilterUnrelated(after, paths) == FilterUnrelated(index, paths) {
      UnrelatedSame(index, after, paths);
    }
  }

  /** The selection stages to another tree than HEAD's. */
  ghost predicate Changes(head: Tree, working: Tree, paths: seq<string>) {
    Stageable(head, working, paths) && StagedTree(head, working, paths) != head
  }

  /** From staging on: the result has its reason in the first state, in a failed call, or in what others did. */
  ghost predicate Justified(r: ExactResult, s: State, paths: seq<string>, failed: bool, moved: bool) {
    match r
    case Blocked(why) => StagingRefuses(why, s.head.tree, s.working, paths) || Disturbed(why, failed, moved)
    case Failed(why) =>
      && (moved || Changes(s.head.tree, s.working, paths))
      && (Disturbed(why, failed, moved)
          || (why.StagedPreservationFailed? && ResetDisturbs(s.head.tree, s.index, s.working, paths)))
    case _ => moved || Changes(s.head.tree, s.working, paths)
  }

  /** The selectors are paths, and no other command holds the queue lock. */
  ghost predicate Entered(s: State, o: Request) {
    o.selectors != [] && AllSelectable(s.index, s.working, o.selectors) && !s.queueLocked
  }

  /** The reason for the result of a whole run. */
  ghost predicate Reasoned(r: ExactResult, s: State, o: Request, paths: seq<string>, failed: bool, moved: bool) {
    match r
    case Blocked(InvalidExactPath) => o.selectors == [] || !AllSelectable(s.index, s.working, o.selectors)
    case Blocked(QueueLocked) => o.selectors != [] && AllSelectable(s.index, s.working, o.selectors) && s.queueLocked
    case Blocked(why) => Entered(s, o) && (Refuses(why, s, o, paths) || Justified(r, s, paths, failed, moved))
    case Preview(_) => Entered(s, o) && Committable(s, o, paths) && Justified(r, s, paths, failed, moved) && o.dryRun
    case _ => Entered(s, o) && Committable(s, o, paths) && Justified(r, s, paths, failed, moved) && !o.dryRun
  }

  /** The selection can be committed here and changes something. */
  ghost predicate Ready(s: State, o: Request, paths: seq<string>) {
    Entered(s, o) && Committable(s, o, paths) && Changes(s.head.tree, s.working, paths)
  }

  lemma RefusedNotCommittable(why: Blocker, s: State, o: Request, paths: seq<string>)
    requires Refuses(why, s, o, paths)
    ensures !Committable(s, o, paths)
  {
  }

  lemma UnstageableChangesNothing(why: Blocker, head: Tree, working: Tree, paths: seq<string>)
    requires StagingRefuses(why, head, working, paths)
    ensures !Changes(head, working, paths)
  {
  }

  lemma BlockedNotReady(why: Blocker, s: State, o: Request, paths: seq<string>)
    requires Reasoned(Blocked(why), s, o, paths, false, false)
    ensures !Ready(s, o, paths)
  {
    if !why.InvalidExactPath? && !why.QueueLocked? {
      if Refuses(why, s, o, paths) {
        RefusedNotCommittable(why, s, o, paths);
      } else {
        UnstageableChangesNothing(why, s.head.tree, s.working, paths);
      }
    }
  }

  /** When no call fails and nobody else acts: what can be committed is committed, or shown, and nothing else is. */
  lemma QuietRunDecides(r: ExactResult, s: State, o: Request, paths: seq<string>)
    requires Reasoned(r, s, o, paths, false, false)
    ensures r.Preview? <==> o.dryRun && Ready(s, o, paths)
    ensures r.Committed? || r.Failed? <==> !o.dryRun && Ready(s, o, paths)
    ensures r.Failed? ==> ResetDisturbs(s.head.tree, s.index, s.working, paths)
  {
    match r
    case Blocked(why) => BlockedNotReady(why, s, o, paths);
    case Preview(_) =>
    case Committed(_) =>
    case Failed(_) =>
  }

  /** What has been committed, or is shown. */
  ghost predicate Produced(r: ExactResult, working: Tree, paths: seq<string>, met: Met) {
    && (r.Committed? || r.Preview? ==>
      && Stageable(met.seed.tree, working, paths)
      && r.included == ChangedPaths(met.seed.tree, StagedTree(met.seed.tree, working, paths)))
    && (r.Committed? || r.Failed? ==> Makes(working, paths, met, met.made))
  }

  /**
   Others may act at any time after the first reads. The recheck looks for a moved
   HEAD and for changed entries outside the selection, and nothing looks at HEAD between
   the recheck and `git commit`.
   */
  method RunExactPathCommit(repo: GitRepo, o: Request) returns (r: ExactResult, paths: seq<string>, ghost met: Met)
    requires repo.Valid()
    modifies repo
    ensures repo.Valid() && repo.queueLocked == old(repo.queueLocked)
    // Every result has its reason in the first state, in a failed call, or in what others did.
    ensures Reasoned(r, old(StateOf(repo)), o, paths, repo.failures > old(repo.failures), repo.moves > old(repo.moves))
    ensures r == Blocked(InvalidExactPath) || (multiset(paths) == multiset(o.selectors) && StrictlySorted(paths))
    ensures Produced(r, old(repo.working), paths, met)
    // Errors before the commit: this process wrote neither HEAD nor the real index.
    ensures r.Blocked? || r.Preview? ==>
      repo.commits == old(repo.commits) && repo.indexWrites == old(repo.indexWrites)
    // Errors after it: the commit stands, and says so.
    ensures r.Committed? || r.Failed? ==> repo.commits == old(repo.commits) + [met.made]
    ensures r.Committed? ==> Succeeded(old(repo.index), old(repo.working), paths, met, met.made, repo.index)
  {
    var normalized := NormalizePaths(repo, o.selectors);
    paths := [];
    met := Met(repo.head, repo.head, repo.head, repo.head, repo.index, repo.index);
    if normalized.None? || normalized.value == [] {
      NothingSelected(normalized, o.selectors);
      return Blocked(InvalidExactPath), paths, met;
    }
    paths := normalized.value;
    if repo.queueLocked {
      return Blocked(QueueLocked), paths, met;
    }
    var acquired := repo.Call();
    if !acquired {
      return Blocked(QueueLockFailed), paths, met;
    }
    repo.queueLocked := true;
    r, met := CommitNormalized(repo, paths, o);
    repo.queueLocked := false;
  }

  lemma NothingSelected(normalized: Option<seq<string>>, selectors: seq<string>)
    requires normalized.Some? ==> normalized.value == [] && multiset(normalized.value) == multiset(selectors)
    ensures normalized.Some? ==> selectors == []
  {
    if normalized.Some? {
      assert |multiset(selectors)| == |selectors|;
    }
  }

  method CommitNormalized(repo: GitRepo, paths: seq<string>, o: Request) returns (r: ExactResult, ghost met: Met)
    requires repo.Valid() && SelectsFiles(repo.working, paths)
    modifies repo`head, repo`branch, repo`index, repo`working, repo`indexLocked, repo`commits, repo`indexWrites
    modifies repo`failures, repo`moves
    ensures repo.Valid() && repo.failures >= old(repo.failures) && repo.moves >= old(repo.moves)
    ensures r.Blocked? || (old(Committable(StateOf(repo), o, paths)) && (r.Preview? <==> o.dryRun))
    ensures Produced(r, old(repo.working), paths, met)
    ensures r.Blocked? || r.Preview? ==>
      repo.commits == old(repo.commits) && repo.indexWrites == old(repo.indexWrites)
    ensures r.Committed? || r.Failed? ==> repo.commits == old(repo.commits) + [met.made]
    ensures r.Committed? ==> Succeeded(old(repo.index), old(repo.working), paths, met, met.made, repo.index)
    ensures r != Blocked(InvalidExactPath) && r != Blocked(QueueLocked)
    ensures
      || (r.Blocked? && Refuses(r.why, old(StateOf(repo)), o, paths))
      || Justified(r, old(StateOf(repo)), paths, repo.failures > old(repo.failures), repo.moves > old(repo.moves))
  {
    met := Met(repo.head, repo.head, repo.head, repo.head, repo.index, repo.index);
    var why := Inspect(repo, o, paths);
    if why.Some? {
      return Blocked(why.value), met;
    }
    r, met := CommitInspected(repo, paths, o.dryRun);
  }

  /** Stages the inspected paths, looks again, and commits. */
  method CommitInspected(repo: GitRepo, paths: seq<string>, dryRun: bool) returns (r: ExactResult, ghost met: Met)
    requires repo.Valid() && SelectsFiles(repo.working, paths)
    modifies repo`head, repo`branch, repo`index, repo`working, repo`indexLocked, repo`commits, repo`indexWrites
    modifies repo`failures, repo`moves
    ensures repo.Valid() && repo.failures >= old(repo.failures) && repo.moves >= old(repo.moves)
    ensures r.Blocked? || (r.Preview? <==> dryRun)
    ensures Produced(r, old(repo.working), paths, met)
    ensures r.Blocked? || r.Preview? ==>
      repo.commits == old(repo.commits) && repo.indexWrites == old(repo.indexWrites)
    ensures r.Committed? || r.Failed? ==> repo.commits == old(repo.commits) + [met.made]
    ensures r.Committed? ==> Succeeded(old(repo.index), old(repo.working), paths, met, met.made, repo.index)
    ensures r != Blocked(InvalidExactPath) && r != Blocked(QueueLocked)
    ensures Justified(r, old(StateOf(repo)), paths, repo.failures > old(repo.failures), repo.moves > old(repo.moves))
  {
    met := Met(repo.head, repo.head, repo.head, repo.head, repo.index, repo.index);
    var initialHead, before := repo.head, repo.index;
    ghost var s := StateOf(repo);
    var why, staged, included;
    ghost var seed;
    why, staged, included, seed := StageIsolated(repo, paths);
    met := met.(seed := seed);
    ghost var moved := repo.moves > old(repo.moves);
    if why.Some? {
      StopJustified(why.value, s, seed, paths, repo.failures > old(repo.failures), moved);
      return Blocked(why.value), met;
    }
    StagedChanges(s, seed, paths, staged, included, moved);
    if dryRun {
      return Preview(included), met;
    }
    r, met := CommitStaged(repo, paths, staged, included, initialHead, before, met, s,
                           repo.failures > old(repo.failures), moved);
  }

  /** The recheck, and the commit when nothing has moved. */
  method CommitStaged(repo: GitRepo, paths: seq<string>, staged: Tree, included: set<string>,
                      initialHead: Commit, before: Index, ghost seeded: Met, ghost s: State, ghost failed: bool,
                      ghost moved: bool)
      returns (r: ExactResult, ghost met: Met)
    requires repo.Valid() && IsTree(staged) && initialHead == s.head && before == s.index
    requires StagedOn(seeded.seed.tree, s.working, paths, staged, included)
    requires !moved ==> seeded.seed == repo.head == s.head && repo.index == before
    modifies repo`head, repo`branch, repo`index, repo`working, repo`indexLocked, repo`commits, repo`indexWrites
    modifies repo`failures, repo`moves
    ensures repo.Valid() && met.seed == seeded.seed && !r.Preview?
    ensures repo.failures >= old(repo.failures) && repo.moves >= old(repo.moves)
    ensures r.Blocked? ==> repo.commits == old(repo.commits) && repo.indexWrites == old(repo.indexWrites)
    ensures !r.Blocked? ==> repo.commits == old(repo.commits) + [met.made] && Makes(s.working, paths, met, met.made)
    ensures r.Committed? ==> r.included == included && Succeeded(before, s.working, paths, met, met.made, repo.index)
    ensures r.Blocked? ==> !r.why.InvalidExactPath? && !r.why.QueueLocked?
    ensures Justified(r, s, paths, failed || repo.failures > old(repo.failures), moved || repo.moves > old(repo.moves))
  {
    met := seeded;
    StagedChanges(s, seeded.seed, paths, staged, included, moved);
    var why := Recheck(repo, initialHead, paths, FilterUnrelated(before, paths));
    if why.Some? {
      return Blocked(why.value), met;
    }
    r, met := CommitAndReset(repo, paths, staged, included, FilterUnrelated(before, paths), met);
    ghost var after := repo.index;
    EndJustified(r, s, paths, staged, failed || repo.failures > old(repo.failures), moved || repo.moves > old(repo.moves));
    if r.Committed? {
      SettledSucceeds(before, s.working, paths, met, after);
    }
  }

  lemma EndJustified(r: ExactResult, s: State, paths: seq<string>, staged: Tree, failed: bool, moved: bool)
    requires moved || (Changes(s.head.tree, s.working, paths) && staged == StagedTree(s.head.tree, s.working, paths))
    requires r.Blocked? ==> r.why.GitCommitFailed? && (failed || moved || staged == s.head.tree)
    requires r.Failed? ==>
      || (r.why.StagedPreservationFailed?
          && (failed || moved || FilterUnrelated(ResetPaths(s.index, staged, paths), paths) != FilterUnrelated(s.index, paths)))
      || (IsCallFailure(r.why) && failed)
    ensures Justified(r, s, paths, failed, moved)
  {
  }

  lemma SettledSucceeds(before: Index, working: Tree, paths: seq<string>, met: Met, after: Index)
    requires Makes(working, paths, met, met.made) && FilterUnrelated(after, paths) == FilterUnrelated(before, paths)
    requires met.settled == ResetPaths(met.resetIndex, met.resetHead.tree, paths)
    ensures Succeeded(before, working, paths, met, met.made, after)
  {
  }

  /** The checks and reads before anything is staged. */
  method Inspect(repo: GitRepo, o: Request, paths: seq<string>) returns (why: Option<Blocker>)
    modifies repo`failures
    ensures repo.failures >= old(repo.failures)
    ensures why == None ==> Committable(StateOf(repo), o, paths) && repo.failures == old(repo.failures)
    ensures why.Some? ==>
      || Refuses(why.value, StateOf(repo), o, paths)
      || (IsCallFailure(why.value) && repo.failures > old(repo.failures))
  {
    why := CheckCommittable(repo, o, paths);
    if why.Some? {
      return;
    }
    var indexRead := repo.Call();
    if !indexRead {
      return Some(IndexReadFailed);
    }
    var statusRead := repo.Call();
    if !statusRead {
      return Some(StatusFailed);
    }
  }

  /** The selection staged on this tree, and what that changes, which is something. */
  ghost predicate StagedOn(seed: Tree, working: Tree, paths: seq<string>, staged: Tree, included: set<string>) {
    && Stageable(seed, working, paths) && staged == StagedTree(seed, working, paths) && staged != seed
    && included == ChangedPaths(seed, staged)
  }

  ghost predicate StagingStops(why: Blocker, seed: Tree, working: Tree, paths: seq<string>, failed: bool) {
    StagingRefuses(why, seed, working, paths) || (failed && (why.TemporaryIndexFailed? || why.ExactStageFailed?))
  }

  lemma StopJustified(why: Blocker, s: State, seed: Commit, paths: seq<string>, failed: bool, moved: bool)
    requires (moved || seed == s.head) && StagingStops(why, seed.tree, s.working, paths, failed)
    ensures Justified(Blocked(why), s, paths, failed, moved) && !why.InvalidExactPath? && !why.QueueLocked?
  {
  }

  lemma StagedChanges(s: State, seed: Commit, paths: seq<string>, staged: Tree, included: set<string>, moved: bool)
    requires (moved || seed == s.head) && StagedOn(seed.tree, s.working, paths, staged, included)
    ensures moved || Changes(s.head.tree, s.working, paths)
    ensures moved || staged == StagedTree(s.head.tree, s.working, paths)
  {
  }

  /** Seeds the temporary index from the HEAD found there and stages the paths. */
  method StageIsolated(repo: GitRepo, paths: seq<string>)
      returns (why: Option<Blocker>, staged: Tree, included: set<string>, ghost seed: Commit)
    requires repo.Valid() && SelectsFiles(repo.working, paths)
    modifies repo`head, repo`branch, repo`index, repo`indexLocked, repo`failures, repo`moves
    ensures repo.Valid() && repo.failures >= old(repo.failures) && repo.moves >= old(repo.moves)
    ensures repo.moves == old(repo.moves) ==> seed == repo.head == old(repo.head) && repo.index == old(repo.index)
    ensures why == None ==> StagedOn(seed.tree, old(repo.working), paths, staged, included) && IsTree(staged)
    ensures why.Some? ==>
      StagingStops(why.value, seed.tree, old(repo.working), paths, repo.failures > old(repo.failures))
  {
    staged, included := map[], {};
    repo.InterfereHead();
    seed := repo.head;
    var seeded := repo.Call();
    if !seeded {
      return Some(TemporaryIndexFailed), staged, included, seed;
    }
    var built := StageExactPaths(repo, repo.head.tree, repo.working, paths);
    if built == None {
      return Some(ExactStageFailed), staged, included, seed;
    }
    var compared := repo.Call();
    if !compared {
      return Some(ExactStageFailed), staged, included, seed;
    }
    staged := built.value;
    included := ChangedPaths(repo.head.tree, staged);
    ChangedIffDiffers(repo.head.tree, staged);
    why := if included == {} then Some(NoSelectedChanges) else None;
  }

  /** The last look before `git commit`, at a HEAD and an index that others may have changed. */
  method Recheck(repo: GitRepo, initialHead: Commit, paths: seq<string>, unrelatedBefore: Index)
      returns (why: Option<Blocker>)
    requires repo.Valid()
    modifies repo`head, repo`branch, repo`index, repo`working, repo`indexLocked, repo`failures, repo`moves
    ensures repo.Valid() && repo.failures >= old(repo.failures) && repo.moves >= old(repo.moves)
    ensures repo.moves == old(repo.moves) ==> repo.head == old(repo.head) && repo.index == old(repo.index)
    ensures why.Some? ==>
      || (why == Some(PrecommitRecheckFailed) && repo.failures > old(repo.failures))
      || (why == Some(StaleBaseHead) && (repo.moves > old(repo.moves) || old(repo.head) != initialHead))
      || (why == Some(StagedContamination)
          && (repo.moves > old(repo.moves) || old(FilterUnrelated(repo.index, paths)) != unrelatedBefore))
  {
    repo.Interfere();
    var rechecked := repo.Call();
    if !rechecked {
      return Some(PrecommitRecheckFailed);
    }
    if repo.head != initialHead {
      return Some(StaleBaseHead);
    }
    why := if FilterUnrelated(repo.index, paths) != unrelatedBefore then Some(StagedContamination) else None;
  }

  /** From `git commit` on; others may act before it, before the reset, and before the index is read back. */
  method CommitAndReset(repo: GitRepo, paths: seq<string>, staged: Tree, included: set<string>, unrelatedBefore: Index,
                        ghost before: Met)
      returns (r: ExactResult, ghost met: Met)
    requires repo.Valid() && IsTree(staged)
    modifies repo`head, repo`branch, repo`index, repo`working, repo`indexLocked, repo`commits, repo`indexWrites
    modifies repo`failures, repo`moves
    ensures repo.Valid() && met.seed == before.seed && !r.Preview?
    ensures r.Blocked? ==> repo.commits == old(repo.commits) && repo.indexWrites == old(repo.indexWrites)
    ensures !r.Blocked? ==>
      && repo.commits == old(repo.commits) + [met.made] && met.made == Commit(met.parent, staged)
      && staged != met.parent.tree
    ensures r.Committed? ==> r.included == included && FilterUnrelated(repo.index, paths) == unrelatedBefore
    ensures r.Committed? ==> met.settled == ResetPaths(met.resetIndex, met.resetHead.tree, paths)
    ensures repo.failures >= old(repo.failures) && repo.moves >= old(repo.moves)
    ensures r.Blocked? ==>
      && r.why.GitCommitFailed?
      && (repo.failures > old(repo.failures) || repo.moves > old(repo.moves) || staged == old(repo.head).tree)
    ensures r.Failed? ==>
      || (r.why.StagedPreservationFailed? && (repo.failures > old(repo.failures) || repo.moves > old(repo.moves)
          || FilterUnrelated(ResetPaths(old(repo.index), staged, paths), paths) != unrelatedBefore))
      || (IsCallFailure(r.why) && repo.failures > old(repo.failures))
  {
    met := before;
    repo.Interfere();
    met := met.(parent := repo.head, made := Commit(repo.head, staged));
    var committed := repo.CommitTree(staged);
    if !committed {
      return Blocked(GitCommitFailed), met;
    }
    repo.Interfere();
    met := met.(resetHead := repo.head, resetIndex := repo.index);
    var reset := repo.ResetIndex(paths);
    if !reset {
      return Failed(IndexReconcileFailed), met;
    }
    met := met.(settled := repo.index);
    repo.Interfere();
    var listed := repo.Call();
    if !listed || FilterUnrelated(repo.index, paths) != unrelatedBefore {
      return Failed(StagedPreservationFailed), met;
    }
    var receipt := repo.Call();
    if !receipt {
      return Failed(CommitReceiptFailed), met;
    }
    return Committed(included), met;
  }

  lemma ChangedIffDiffers(before: Tree, after: Tree)
    ensures ChangedPaths(before, after) == {} <==> before == after
  {
    if ChangedPaths(before, after) == {} {
      forall q ensures At(before, q) == At(after, q) {
        assert q in before.Keys + after.Keys && At(before, q) != At(after, q) ==> q in ChangedPaths(before, after);
      }
      SameTree(before, after);
    }
  }

  lemma ResetSettlesSelection(index: Index, before: Index, head: Tree, paths: seq<string>)
    requires index == ResetPaths(before, head, paths)
    ensures forall p :: p in paths ==> Staged(index, p) == At(head, p)
  {
    forall p | p in paths ensures Staged(index, p) == At(head, p) {
      assert CoveredBy(p, p);
      CoveredByOne(paths, p, p);
    }
  }

  // ---------------------------------------------------------------- isolation

  /**
   A success is the commit that was asked for if and only if Git committed on the first
   HEAD, this HEAD tracks every selected deletion, and the HEAD that seeded the
   temporary index agrees with it off the selection and on directories in its place.
   */
  lemma ExactIffHeadStayed(head: Commit, index: Index, working: Tree, paths: seq<string>, met: Met, made: Commit,
                           indexAfter: Index)
    requires Succeeded(index, working, paths, met, made, indexAfter) && IsTree(head.tree)
    ensures CommittedExactly(head, working, paths, made) <==>
      && met.parent == head && (forall p :: p in paths ==> p in working || Tracked(head.tree, p))
      && StagesAlike(met.seed.tree, head.tree, working, paths)
  {
    StageableIff(head.tree, working, paths);
    if Stageable(head.tree, working, paths) {
      SameStagedIff(met.seed.tree, head.tree, working, paths);
    }
  }

  /**
   The reset gives the selected entries the committed version if and only if the HEAD
   it read has that version of each, as the commit itself has.
   */
  lemma SettledIffHeadShowsCommit(index: Index, working: Tree, paths: seq<string>, met: Met, made: Commit,
                                  indexAfter: Index)
    requires Succeeded(index, working, paths, met, made, indexAfter)
    ensures Settles(met.settled, made, paths) <==> forall p :: p in paths ==> At(met.resetHead.tree, p) == At(made.tree, p)
    ensures met.resetHead == made ==> Settles(met.settled, made, paths)
  {
    ResetSettlesSelection(met.settled, met.resetIndex, met.resetHead.tree, paths);
  }

  /**
   Against its parent, the commit changes an unselected path exactly where HEAD had
   moved after the temporary index was seeded, and it puts the seeded version back.
   */
  lemma RevertsWhatMoved(index: Index, working: Tree, paths: seq<string>, met: Met, made: Commit, indexAfter: Index,
                         q: string)
    requires Succeeded(index, working, paths, met, made, indexAfter)
    requires NoFileDirectoryChange(met.seed.tree, working, paths) && q !in paths
    ensures At(made.tree, q) == At(met.seed.tree, q)
    ensures At(made.tree, q) != At(met.parent.tree, q) <==> At(met.parent.tree, q) != At(met.seed.tree, q)
  {
    StagesExactlySelected(met.seed.tree, working, paths);
  }

  /** Selecting `a` alone: the staged tree has the new `a` and the old `b`. */
  lemma StagesOnlyFirst(first: File, mine: File)
    ensures var start, working, paths :=
        map["a" := first, "b" := first], map["a" := mine, "b" := first], ["a"];
      && Stageable(start, working, paths)
      && StagedTree(start, working, paths) == working
  {
    var start: Tree, working: Tree, paths := map["a" := first, "b" := first], map["a" := mine, "b" := first], ["a"];
    assert !IsBelow("a", "b") && !IsBelow("b", "a");
    assert CoveredBy("a", "a") && Tracked(start, "a");
    assert paths[..0] == [] && NewPaths(start, []) == [];
    assert NewPaths(start, paths) == [];
    StagesExactlySelected(start, working, paths);
    forall q ensures At(StagedTree(start, working, paths), q) == At(working, q) {
      assert q in paths <==> q == "a";
    }
    SameTree(StagedTree(start, working, paths), working);
  }

  /** Resetting `a` leaves the record of `b`. */
  lemma ResetKeepsOther(index: Index, head: Tree)
    requires index.Keys == head.Keys == {"a", "b"}
    ensures FilterUnrelated(ResetPaths(index, head, ["a"]), ["a"]) == FilterUnrelated(index, ["a"])
  {
    var paths := ["a"];
    assert !IsBelow("a", "b") && !IsBelow("b", "a");
    forall q | Covered(paths, q) ensures CoveredBy("a", q) {
    }
    assert !InTheWay(index, head, paths, "b");
  }

  /**
   Another program moves the branch to a new version of `b` between the recheck and
   `git commit`, without touching this index: selecting `a` succeeds, and the commit
   silently takes the change of `b` back.
   */
  lemma SilentRevert(first: File, theirs: File, mine: File) returns (met: Met, made: Commit)
    requires first != theirs && first != mine
    ensures var head, index :=
        Root(map["a" := first, "b" := first]), map["a" := Record(first, 'H'), "b" := Record(first, 'H')];
      && Succeeded(index, map["a" := mine, "b" := first], ["a"], met, made, met.settled)
      && met.seed == head && met.parent == Commit(head, map["a" := first, "b" := theirs])
      && !CommittedExactly(head, map["a" := mine, "b" := first], ["a"], made)
      && At(made.tree, "b") == Some(first)
  {
    var start: Tree, moved: Tree, working: Tree :=
      map["a" := first, "b" := first], map["a" := first, "b" := theirs], map["a" := mine, "b" := first];
    var head := Root(start);
    var index: Index := map["a" := Record(first, 'H'), "b" := Record(first, 'H')];
    StagesOnlyFirst(first, mine);
    made := Commit(Commit(head, moved), StagedTree(start, working, ["a"]));
    met := Met(head, Commit(head, moved), made, made, index, ResetPaths(index, made.tree, ["a"]));
    ResetKeepsOther(index, made.tree);
  }

  /** Whatever else is staged stays staged and uncommitted, exactly when no file and directory change places. */
  lemma UnrelatedStaysStaged(head: Commit, index: Index, working: Tree, paths: seq<string>, met: Met, made: Commit,
                             indexAfter: Index)
    requires Succeeded(index, working, paths, met, made, indexAfter) && CommittedExactly(head, working, paths, made)
    ensures forall q :: q !in paths ==> (q in indexAfter <==> q in index) && (q in index ==> indexAfter[q] == index[q])
    ensures ExactlySelected(head.tree, working, paths, made.tree) <==>
            NoFileDirectoryChange(head.tree, working, paths)
  {
    UnrelatedSame(index, indexAfter, paths);
    StagesExactlySelected(head.tree, working, paths);
  }

  /**
   The directory `a` became a file: selecting `a` commits the deletion of the
   unselected `a/c` and leaves `a` itself out.
   */
  lemma DirectoryReplacedByFile(file: File)
    ensures var head, working, paths := map["a/c" := file], map["a" := file], ["a"];
      Stageable(head, working, paths) && StagedTree(head, working, paths) == map[]
  {
    var head: Tree, working: Tree, paths := map["a/c" := file], map["a" := file], ["a"];
    assert "a" + "/" == "a/" == "a/c"[..2];
    assert IsBelow("a", "a/c") && !IsBelow("a", "a") && !IsBelow("a/c", "a/c");
    assert CoveredBy("a", "a/c") && Tracked(head, "a");
    assert paths[..0] == [] && TrackedPaths(head, []) == [] && NewPaths(head, []) == [];
    assert TrackedPaths(head, paths) == ["a"] && NewPaths(head, paths) == [];
    CoveredByOne(paths, "a", "a/c");
    assert UpdateTracked(head, working, paths) == map[];
  }
}
