# Verified model of kano-git's commit-plan core

kano-git orchestrates commits over a workspace of nested Git repositories. This
project models the parts of it that carry real protocols and algorithms, in Dafny,
and proves what they are for:

* **Agent mutation queue.** A durable queue of work items (`pending`, one `active`
  batch, at most 100 `receipts`) that many processes change under a directory lock.
  `AgentQueue.Execute` is the queue as one atomic machine; the commands are proved
  against it, admission from its arguments on (`AdmissionArguments`). `QueueMeaning`
  says what admission, drain and completion do in terms of the requests alone, up to
  which requests are ever active together. `QueueProtocol` and `QueueRuns` take the
  commands step by step with crashes, and `QueueRefinement` shows that the state file
  is always the atomic queue after the committed commands.
* **Isolated commits.** Exact-path commits through a temporary index, and
  cooperative overlap commits that save pre-existing work in a checkpoint ref,
  separate the caller's own text by three-way merges, and reconcile the index last.
  Git is an abstract repository (`GitRepository.GitRepo`): HEAD, index records with
  flags, working files and refs, with other programs allowed to interfere. It counts
  failed calls and moves of others, so that every refusal is traced to its reason.
* **Commit task scheduler.** Kahn layering over chain, dependency and path-nesting
  edges, with its graph theory (`Layering`), the meaning of the edges (`EdgeMeaning`)
  and the cycle fallback (`TaskGraph`, `TaskOrder`). The gitlink auto-amend (`GitlinkState`, `GitlinkAmend`) uses the same
  layering.
* **Plan execution.** The POSIX conditional rewrite byte by byte (`PosixFile`,
  `PlanRewrite`), the plan pipeline with its audit log (`PlanPipeline`), and any
  number of interleaved runs on one plan file from any workspace roots, each rewrite
  being many steps under the file's advisory lock (`PlanLocking`, `PlanStamps`,
  `PlanRuns`, `PlanReentry`, `PlanRestamps`).
* **JSON scanners.** The hand-written scanners against printed JSON documents
  (RFC 8259, sections 2 to 7), up to the stage entries of a plan (`StageEntries`).
* **Small algorithms.** Submodule discovery, the memoised dirty-scope filter, the
  edit-distance table, and the decimal range check.

Loops and state changes of the C++ code are Dafny methods with invariants, proved
against functions whose own properties are lemmas. External behaviour (Git calls,
system calls, the audit store, exit codes of stages) is a method body that chooses
nondeterministically, so every statement holds for all outcomes.

## Results about the code that differ from its documentation

* `NormalizePaths` compares only neighbours after sorting. The selectors it accepts
  are characterised exactly (`PathSelectors.AdjacentTestCatches`), and `a`, `a-b`,
  `a/c` is a list it accepts although two of its selectors overlap.
* Exact-path commits stage with pathspecs. The commit takes exactly the selected
  files if and only if HEAD and the selection do not turn a file into a directory
  or back (`GitTree.StagesExactlySelected`). When the directory `a` became a file,
  selecting `a` commits the deletion of the unselected `a/c` and leaves `a` out
  (`ExactCommit.DirectoryReplacedByFile`).
* Nothing guards HEAD while an exact-path commit seeds its temporary index and
  between its recheck and `git commit`. A success is the commit that was asked for if
  and only if Git committed on the first HEAD and the seeding HEAD agrees with it off
  the selection (`ExactCommit.ExactIffHeadStayed` has the whole condition); otherwise
  it takes back exactly what moved (`ExactCommit.RevertsWhatMoved`,
  `ExactCommit.SilentRevert`).
* The reset after an exact-path commit reaches below selected paths. Even when nobody
  else acts, a commit that stands can end in an error, if and only if staged records
  below a selected path differ from what was committed, or records outside the selection
  stand where a committed path needs a directory (`ExactCommit.QuietRunDecides`,
  `ExactCommit.ResetKeepsUnselectedIff`).
* An overlap commit stages its result as new index records, which come with a plain
  flag, and then asks for the flag to be the old one: it refuses every captured path
  whose record is marked assume-unchanged or skip-worktree, after the checkpoint is made
  (`OverlapCommit.StageReconciled`, `OverlapCommit.QuietRunIsNotRefused`).
* The overlap commit compares HEAD before and after it seeds the own index, but never
  looks at what it seeded from. A success changes only the captured paths if and only
  if that HEAD has the base's files everywhere else
  (`OverlapCommit.OwnCommittedIffSeedAgrees`, `OverlapCommit.OwnCarriesForeign`). It
  also reads every working file twice without comparing the reads, so checkpoint and
  own commit give the final text back if and only if the file cleaned to the same text
  at both (`OverlapCommit.FinalTextRecoverable`, `OverlapCommit.OwnFromOtherEdit`).
* The gitlink auto-amend also amends for a submodule that only has changes of its
  own, and then never converges. It succeeds, when no Git command fails, if and only
  if no candidate shows in scope a submodule whose tree stays changed
  (`GitlinkAmend.AutoAmendGitlinkOnlyRepos`, `GitlinkState.EditedSubmoduleIsStuck`).
* Two plan runs that reserved the same bytes can both finish with their stamp, but
  only if a run that reserved the stamped plan clears it in between
  (`PlanRuns.BothStampedOnlyIfRecleared`), and without a torn rewrite if and only if
  these bytes are a cleared plan as the JSON library prints it
  (`PlanRestamps.BothStampIffPrintedCleared`).
* The execution lock belongs to a workspace root, so runs of one plan file from two
  roots do not exclude each other. When all reserve the same bytes, two of them can be
  past their clear together if and only if these bytes are a cleared plan already, and
  the same holds for runs of one thread, which share a lock
  (`PlanReentry.TwoPastClearIffCleared`). A thread shares whatever lock it
  has for the plan, so even runs of one root can execute together when a thread works
  for two (`PlanReentry.OneRootTwoLocks`); otherwise they exclude each other
  (`PlanRuns.SameRootExcludes`).
* The cycle fallback puts nested repositories before their ancestors if and only if
  the path depth of the records as spelled grows along nesting; a parent spelled
  through `..` can be the deeper one (`TaskOrder.SpelledDepthCounterexample`).
* A field lookup in a plan object returns the object's own member if and only if no
  value listed before it contains the same key (`PlanFields.LookupReadsOwnMember`,
  `StageEntries.StageFindsOwnIffClean`).
* `RunAdmit` does not look at the ids inside the active batch. A pending item and an
  active one share an id if and only if an admission took an id of the active batch
  and that batch has not ended since (`QueueInvariants.SharedIdIffAdmittedWhileActive`).
* The memoised dirty filter ends if and only if the dependencies have no cycle
  (`DirtyScope.FilterDirty`).
* A readback that cannot confirm the replacement is not rolled back. So a pipeline
  exit other than 0 leaves no stamp of its run unless the report says the file could
  not be restored, is corrupt, or could not be confirmed
  (`PlanPipeline.RunPlanPipeline`). A plan or a status that cannot be read after the lock
  is logged ends the run with 2 and leaves the audit open, without an entry for it. A
  plan refused for its placeholders exits 3 even when the entry that says so is missing,
  where every other missing entry gives 2.
* The edit distance is no metric (`EditDistance.TriangleFails`), but it satisfies the
  triangle inequality where no swap is needed (`EditDistance.TriangleWithoutSwaps`).

## Model

| member | source | states |
|---|---|---|
| QueueRefinement.StateFileIsAtomicQueue | src/cpp/code/systems/kano_git_command/commit_plan/private/agent_queue_cmd.cpp:45-72 | For any number of commands interleaved at lock, load, decide, temporary write, rename, answer and unlock, with crashes anywhere, the state file equals the atomic queue after the committed commands, and that state is sound and conserves items |
| QueueRefinement.AdmittedItemsRemain | src/cpp/code/systems/kano_git_command/commit_plan/private/agent_queue_cmd.cpp:924-953 | An acknowledged admission is still pending, active or receipted after every run, unless its receipt was evicted |
| QueueRuns.CommittedStatesAreAtomicRun | src/cpp/code/systems/kano_git_command/commit_plan/private/agent_queue_cmd.cpp:229-304 | The renames that took effect, in order, form a run of the atomic machine, each starting where the one before ended and answering its own command; the file is the last of them |
| QueueRuns.AcknowledgedExactlyOnce | src/cpp/code/systems/kano_git_command/commit_plan/private/agent_queue_cmd.cpp:586-598 | A command told it succeeded committed exactly once with that answer; a command told it was refused, with the lock or without it, committed nothing |
| QueueRuns.StatusShowsCommitted | src/cpp/code/systems/kano_git_command/commit_plan/private/agent_queue_cmd.cpp:960-977 | A status read, which takes no lock, shows the empty queue or some committed state |
| QueueRuns.LockIsExclusive | src/cpp/code/systems/kano_git_command/commit_plan/private/agent_queue_cmd.cpp:45-72 | No two processes are between taking and releasing the queue lock at once |
| QueueProtocol.StepKeeps | src/cpp/code/systems/kano_git_command/commit_plan/private/agent_queue_cmd.cpp:279-304 | Every single step of every process, including a crash, keeps the invariant that ties snapshots, temporary files, history and answers together |
| QueueInvariants.ReachableStates | src/cpp/code/systems/kano_git_command/commit_plan/private/agent_queue_cmd.cpp:924-1102 | Every reachable queue: pending ids distinct, at most 100 receipts, the active batch non-empty, compatible, at its base HEAD and covering exactly its items' files; admitted items = pending + active + receipts + evicted |
| QueueInvariants.ExecuteKeepsSound | src/cpp/code/systems/kano_git_command/commit_plan/private/agent_queue_cmd.cpp:865-1107 | Each command keeps the queue sound |
| QueueInvariants.ActiveBatchClaims | src/cpp/code/systems/kano_git_command/commit_plan/private/agent_queue_cmd.cpp:457-499 | In every reachable active batch two items sharing a path agree on a non-empty postcondition or claim no line in common |
| QueueInvariants.AdmissionSharesIffActive | src/cpp/code/systems/kano_git_command/commit_plan/private/agent_queue_cmd.cpp:928-935 | On every sound queue without a shared id an admission makes an id both pending and active if and only if it is admitted and its id is among the active batch's item ids |
| QueueInvariants.SharedIdIffAdmittedWhileActive | src/cpp/code/systems/kano_git_command/commit_plan/private/agent_queue_cmd.cpp:924-953 | A reachable queue has an id both pending and active if and only if some admission took an id of the active batch and that batch has not ended since |
| QueueRefinement.StateFileSharesId | src/cpp/code/systems/kano_git_command/commit_plan/private/agent_queue_cmd.cpp:924-953 | The same of the state file at every moment of every interleaved run, for its committed commands |
| QueueInvariants.SameIdActiveAndPending | src/cpp/code/systems/kano_git_command/commit_plan/private/agent_queue_cmd.cpp:928-935 | Such an admission exists: a concrete command log |
| AdmissionArguments.RunAdmitCommand | src/cpp/code/systems/kano_git_command/commit_plan/private/agent_queue_cmd.cpp:865-958 | Arguments that fail a check are refused and leave the queue alone; all others are admitted to the atomic queue. The item admitted has the id, work item, agent and files of the arguments; a line is claimed in it exactly when some chunk argument of that file holds it, and a file has the value of the last postcondition argument that names it |
| AdmissionArguments.ParseAdmission | src/cpp/code/systems/kano_git_command/commit_plan/private/agent_queue_cmd.cpp:877-911 | Accepts exactly when work item and agent are not blank, the id is safe, the files resolve without a neighbouring overlap, and every chunk and postcondition parses and names a declared file; then the request carries those files, ranges and values |
| AdmissionArguments.ChunkParsesIff | src/cpp/code/systems/kano_git_command/commit_plan/private/agent_queue_cmd.cpp:422-442 | What a chunk selector reads as, told by its characters: it splits at its last colon and at the first dash behind it, both numbers are read as decimals, and the range must be positive and in order |
| AdmissionArguments.KeyValueParsesIff | src/cpp/code/systems/kano_git_command/commit_plan/private/agent_queue_cmd.cpp:412-420 | A postcondition splits at its first equals sign into two parts that are not empty |
| AdmissionArguments.TrimmedMeans | src/cpp/code/systems/kano_git_command/commit_plan/private/agent_queue_cmd.cpp:878-880 | Trimming takes blanks off both ends and nothing else |
| AdmissionArguments.ChunkReadBack | src/cpp/code/systems/kano_git_command/commit_plan/private/agent_queue_cmd.cpp:422-442 | A chunk selector written for any path, also one with colons and dashes, and any range below 2^63 reads back as that path and range |
| AdmissionArguments.PostconditionReadBack | src/cpp/code/systems/kano_git_command/commit_plan/private/agent_queue_cmd.cpp:412-420 | A postcondition reads back when its path has no equals sign |
| AgentQueue.QueueDirectory.RunAdmit | src/cpp/code/systems/kano_git_command/commit_plan/private/agent_queue_cmd.cpp:912-957 | Answer and new state file are those of the atomic queue, whose admission QueueMeaning.AdmissionMeans describes, for every lock, read and write outcome; the lock is released |
| AgentQueue.QueueDirectory.RunDrain | src/cpp/code/systems/kano_git_command/commit_plan/private/agent_queue_cmd.cpp:1019-1067 | Answer and new state file are those of the atomic queue for drain (QueueMeaning.DrainMeans), preview or confirmed |
| AgentQueue.QueueDirectory.RunComplete | src/cpp/code/systems/kano_git_command/commit_plan/private/agent_queue_cmd.cpp:1069-1107 | Answer and new state file are those of the atomic queue for completion (QueueMeaning.CompletionMeans) |
| QueueMeaning.AdmissionMeans | src/cpp/code/systems/kano_git_command/commit_plan/private/agent_queue_cmd.cpp:912-957 | An admission succeeds exactly when its id is neither pending nor the active batch's and HEAD resolves. It appends one item with every field of the request: for each path the ranges the request lists for it, in order, and the last postcondition listed for it |
| QueueMeaning.ClaimsAsListed | src/cpp/code/systems/kano_git_command/commit_plan/private/agent_queue_cmd.cpp:889-903 | In the item a line of a path is claimed if and only if some listed chunk of that path holds it |
| QueueMeaning.CompatibleIffTogether | src/cpp/code/systems/kano_git_command/commit_plan/private/agent_queue_cmd.cpp:457-499 | Two items may be in one batch if and only if the requests they came from agree on the final state of every shared file or both list chunks of it and share no line |
| QueueMeaning.ActiveRequestsFit | src/cpp/code/systems/kano_git_command/commit_plan/private/agent_queue_cmd.cpp:979-992 | After any run, two items of the active batch were admitted by two commands whose requests fit together in this sense: lines claimed by both are never active together unless the postconditions agree |
| QueueMeaning.FirstObstacleIff | src/cpp/code/systems/kano_git_command/commit_plan/private/agent_queue_cmd.cpp:979-992 | Planning stops at an item or pair if and only if it is stale or in conflict and all that is scanned before it is at HEAD and compatible |
| QueueMeaning.DrainMeans | src/cpp/code/systems/kano_git_command/commit_plan/private/agent_queue_cmd.cpp:1019-1067 | Each answer of a drain, with the condition on the queue and HEAD under which it is given, both ways |
| QueueMeaning.DrainTakesPending | src/cpp/code/systems/kano_git_command/commit_plan/private/agent_queue_cmd.cpp:993-1067 | Preview and activated batch list ids, work items and agents of the pending items in order and unite their files and validations; activating takes all pending items and nothing else changes the queue |
| QueueMeaning.CompletionMeans | src/cpp/code/systems/kano_git_command/commit_plan/private/agent_queue_cmd.cpp:1069-1107 | Only the active batch that is named is completed; the receipt is that batch with the requested status and the time, and the oldest of more than 100 receipts goes |
| QueueMeaning.AnswerMeans | src/cpp/code/systems/kano_git_command/commit_plan/private/agent_queue_cmd.cpp:229-304 | What a command answers for each outcome of lock, read and write, and that the file changes exactly with a success |
| QueueBatch.BuildBatch | src/cpp/code/systems/kano_git_command/commit_plan/private/agent_queue_cmd.cpp:979-1017 | Reports the first stale or conflicting item in scan order, or builds the batch with the ids, work items and agents in order and the union of files and validations |
| QueueBatch.PlansIffAccepts | src/cpp/code/systems/kano_git_command/commit_plan/private/agent_queue_cmd.cpp:979-992 | Planning succeeds exactly when every item is at HEAD and every pair is compatible |
| QueueBatch.VerdictIgnoresOrder | src/cpp/code/systems/kano_git_command/commit_plan/private/agent_queue_cmd.cpp:979-992 | The verdict is the same for every permutation of pending |
| QueueBatch.CompatibilityIsSymmetric | src/cpp/code/systems/kano_git_command/commit_plan/private/agent_queue_cmd.cpp:475-499 | Compatibility of two items does not depend on which comes first |
| QueueBatch.ApartMeansNoSharedLine | src/cpp/code/systems/kano_git_command/commit_plan/private/agent_queue_cmd.cpp:422-473 | On admitted ranges the interval test holds exactly when both sides declare chunks and no line lies in both |
| QueueBatch.ChunksDoNotOverlap | src/cpp/code/systems/kano_git_command/commit_plan/private/agent_queue_cmd.cpp:457-473 | Both sides declare chunks and every pair of ranges is apart |
| QueueBatch.Compatible | src/cpp/code/systems/kano_git_command/commit_plan/private/agent_queue_cmd.cpp:475-499 | For every shared path the postconditions agree and are non-empty, or the chunks are apart |
| PathSelectors.SortSelectors | src/cpp/code/systems/kano_git_command/commit_plan/private/agent_queue_cmd.cpp:347-371 | Refuses exactly the lists with a duplicate, or with a selector that has another below it while no selector continues it with a character before the slash; otherwise the same selectors strictly sorted |
| PathSelectors.AdjacentTestCatches | src/cpp/code/systems/kano_git_command/commit_plan/private/agent_queue_cmd.cpp:360-371 | What the comparison of sorted neighbours catches, stated without the sort |
| PathSelectors.OverlapSlipsThrough | src/cpp/code/systems/kano_git_command/commit_plan/private/agent_queue_cmd.cpp:360-371 | `a`, `a-b`, `a/c` overlap and are accepted |
| ExactCommit.NormalizePaths | src/cpp/code/systems/kano_git_command/commit_plan/private/agent_queue_cmd.cpp:347-410 | Accepts exactly when no selector is empty, the order test passes and every selector is a file of the working tree, a tracked gitlink or a tracked deletion, not a directory |
| ExactCommit.RunExactPathCommit | src/cpp/code/systems/kano_git_command/commit_plan/private/agent_queue_cmd.cpp:2011-2219 | With other programs acting at any time: success is one commit of the staged tree on the HEAD Git met, the index written by the reset, every other index record as before, within the active batch and at its base HEAD. A preview comes only with a dry run. Every refusal has its condition in the first state, or a call failed or others acted. Errors before the commit write neither HEAD nor the index; errors after it keep the commit |
| ExactCommit.QuietRunDecides | src/cpp/code/systems/kano_git_command/commit_plan/private/agent_queue_cmd.cpp:2011-2219 | When no call fails and nobody else acts: the commit is made, or shown in a dry run, if and only if the selectors can be selected, the queue is not locked, batch and HEAD allow it, and staging changes something; after it the run fails only if the reset touches records outside the selection |
| ExactCommit.ResetKeepsUnselectedIff | src/cpp/code/systems/kano_git_command/commit_plan/private/agent_queue_cmd.cpp:2192-2203 | The reset leaves all unselected records as they were if and only if those below a selected path are as committed and none stands where a committed path needs a directory |
| ExactCommit.ExactIffHeadStayed | src/cpp/code/systems/kano_git_command/commit_plan/private/agent_queue_cmd.cpp:2118-2190 | A success is the commit that was asked for if and only if Git committed on the first HEAD, that HEAD tracks every selected deletion, and the HEAD that seeded the temporary index agrees with it on every path off the selection and on whether a directory stands where a selected file goes |
| ExactCommit.SettledIffHeadShowsCommit | src/cpp/code/systems/kano_git_command/commit_plan/private/agent_queue_cmd.cpp:2192-2197 | The reset gives the selected entries the committed versions if and only if the HEAD it read has them |
| ExactCommit.RevertsWhatMoved | src/cpp/code/systems/kano_git_command/commit_plan/private/agent_queue_cmd.cpp:2168-2190 | Against its parent the commit changes an unselected path exactly where HEAD moved after the temporary index was seeded, and puts the seeded version back |
| ExactCommit.SilentRevert | src/cpp/code/systems/kano_git_command/commit_plan/private/agent_queue_cmd.cpp:2184-2190 | Such a run: a success that takes back what another program committed between the recheck and the commit |
| ExactCommit.StageExactPaths | src/cpp/code/systems/kano_git_command/commit_plan/private/agent_queue_cmd.cpp:2114-2153 | The temporary index holds HEAD with tracked selections updated and new ones added |
| GitTree.StagesExactlySelected | src/cpp/code/systems/kano_git_command/commit_plan/private/agent_queue_cmd.cpp:2118-2149 | The commit equals the working tree on the selected paths and HEAD elsewhere if and only if HEAD has no file above a selected path, and every file below one is selected itself with nothing at the selected path |
| GitTree.StagedByPath | src/cpp/code/systems/kano_git_command/commit_plan/private/agent_queue_cmd.cpp:2118-2149 | The staged tree path by path: a selected path has its working version unless HEAD has a directory there, what lies above or below a selected path is gone, everything else is as in HEAD |
| GitTree.SameStagedIff | src/cpp/code/systems/kano_git_command/commit_plan/private/agent_queue_cmd.cpp:2114-2149 | Two trees stage the same selection to the same tree if and only if they agree off the selection and on directories in place of selected files |
| ExactCommit.UnrelatedStaysStaged | src/cpp/code/systems/kano_git_command/commit_plan/private/agent_queue_cmd.cpp:564-573 | When the commit is the one asked for, every index record outside the selection is as before, flags included, and the commit is exactly the selection under the condition above |
| ExactCommit.DirectoryReplacedByFile | src/cpp/code/systems/kano_git_command/commit_plan/private/agent_queue_cmd.cpp:2120-2141 | A directory that became a file: selecting the file commits the deletion of the unselected file below it and leaves the file out |
| OverlapCommit.RunCooperativeOverlapCommit | src/cpp/code/systems/kano_git_command/commit_plan/private/agent_queue_cmd.cpp:1741-2007 | With other programs acting before every read: success is a commit on the captured base whose tree is that of the HEAD found at seeding with the own text on the captured paths, the index put in place differs only in the blobs of those paths, each working file still was what the first read saw, the pre-existing work is saved under a new ref. A preview comes only with a dry run, and every refusal has its condition in the first state or the texts, or a call failed or others acted. Before the commit nothing of ours reaches HEAD or the index; after it every failure asks for recovery, and comes only of a failed call or of others |
| OverlapCommit.QuietRunIsNotRefused | src/cpp/code/systems/kano_git_command/commit_plan/private/agent_queue_cmd.cpp:1741-2007 | When no call fails and nobody else acts, a run is not refused if the capture describes the repository, every path can be separated, the index is not locked, the checkpoint and the own blobs fit, the own text changes something, and every captured record has a plain index flag |
| OverlapCommit.OwnCommittedIffSeedAgrees | src/cpp/code/systems/kano_git_command/commit_plan/private/agent_queue_cmd.cpp:1921-1946 | A success changes only the captured paths of the base if and only if the HEAD that seeded the own index has the base's files everywhere else; and it differs from the base exactly where that HEAD does |
| OverlapCommit.OwnCarriesForeign | src/cpp/code/systems/kano_git_command/commit_plan/private/agent_queue_cmd.cpp:1921-1946 | Such a run: HEAD moved while the own index was seeded and back before the compare; the command succeeds and its commit carries the other program's file |
| OverlapCommit.OwnChangesBase | src/cpp/code/systems/kano_git_command/commit_plan/private/agent_queue_cmd.cpp:1541-1549 | The own commit changes some captured path of the base |
| OverlapCommit.PrepareOwnOverlap | src/cpp/code/systems/kano_git_command/commit_plan/private/agent_queue_cmd.cpp:1431-1550 | Each file is read twice with others acting before each read. The own text of every captured path comes from merging the captured change out of the text of the second read, and merging it back onto the captured text gives that text again; some path has an own change |
| OverlapCommit.StageReconciled | src/cpp/code/systems/kano_git_command/commit_plan/private/agent_queue_cmd.cpp:1868-1905 | Prepared on a copy of whatever index is in place, the reconciled index differs from the one at the start only in the blobs of the captured paths; modes and flags are kept, the flags being plain, and other records unchanged |
| OverlapCommit.CommitOwn | src/cpp/code/systems/kano_git_command/commit_plan/private/agent_queue_cmd.cpp:1949-2000 | Commits the sealed tree, and replaces the index only after the commit read back with the expected parent and tree and index, branch, HEAD and each working file were looked at again |
| OverlapCommit.FinalTextRecoverable | src/cpp/code/systems/kano_git_command/commit_plan/private/agent_queue_cmd.cpp:1466-1536 | Merging the checkpoint's version and the own commit over their base gives the text of the second read, and modes are kept; so it gives the text in the working tree, and no work is lost, if and only if the file cleaned to the same text at both reads |
| OverlapCommit.OwnFromOtherEdit | src/cpp/code/systems/kano_git_command/commit_plan/private/agent_queue_cmd.cpp:1466-1481 | A run in which it does not: an edit between the two reads that is taken back again is what gets committed |
| Checkpoint.CreateCheckpointRef | src/cpp/code/systems/kano_git_command/commit_plan/private/agent_queue_cmd.cpp:1642-1739 | The ref ends a chain of one or two commits from the base: staged versions when they differ from HEAD, then working versions when they differ from staged; the tip has the working version on every captured path and the base elsewhere. It fails only if a call does or the captured versions make no such chain |
| Checkpoint.Checkout.RunPhase | src/cpp/code/systems/kano_git_command/commit_plan/private/agent_queue_cmd.cpp:1666-1708 | A phase commits exactly when it changes some captured path, and then has its versions and nothing else new |
| TaskGraph.BuildCommitTaskGraph | src/cpp/code/systems/kano_git_command/commit_plan/private/commit_plan_task_graph.cpp:123-282 | The tasks are the commits of the valid runbooks, each once and in order. Flags a cycle exactly when the edges have one; the waves hold every commit task exactly once; without a cycle every edge climbs, wave numbers are longest-chain lengths and no schedule has fewer waves, each wave sorted; with one, one task per wave in comparator order |
| TaskGraph.BuildRepoCommitRunbooks | src/cpp/code/systems/kano_git_command/commit_plan/private/commit_plan_task_graph.cpp:88-121 | One runbook per record, in order; it is invalid and empty exactly when the plan gives several commits of which one has no scope |
| TaskGraph.CollectTasks | src/cpp/code/systems/kano_git_command/commit_plan/private/commit_plan_task_graph.cpp:132-148 | For every valid runbook and every index of its commits exactly one task, with that record, index, commit and count, runbook by runbook; every task comes from such a pair; and per record the list of its tasks in order |
| TaskGraph.EachCommitOnce | src/cpp/code/systems/kano_git_command/commit_plan/private/commit_plan_task_graph.cpp:132-265 | Every commit of a valid runbook is in exactly one wave, as exactly one task |
| EdgeMeaning.EdgesAre | src/cpp/code/systems/kano_git_command/commit_plan/private/commit_plan_task_graph.cpp:153-217 | One task precedes another by an edge if and only if it is the commit before it in the same repository, or the two are last and first commit of repositories of which the first depends on the second or is nested in it |
| TaskGraph.LayersAreOptimal | src/cpp/code/systems/kano_git_command/commit_plan/private/commit_plan_task_graph.cpp:237-265 | Layers are longest-chain numbers, respect all edges, and no schedule that respects them is shorter |
| Layering.WaveIsLongestChain | src/cpp/code/systems/kano_git_command/commit_plan/private/commit_plan_task_graph.cpp:246-265 | A node is in wave k exactly when the longest chain of edges ending at it has k + 1 nodes |
| Layering.LeftOverIffCycle | src/cpp/code/systems/kano_git_command/commit_plan/private/commit_plan_task_graph.cpp:267-268 | When the loop stops, nodes are left over exactly when the edges contain a cycle |
| Layering.LayersCover | src/cpp/code/systems/kano_git_command/commit_plan/private/commit_plan_task_graph.cpp:246-265 | The layers hold every node once and every edge goes to a strictly later one |
| Layering.FewestWaves | src/cpp/code/systems/kano_git_command/commit_plan/private/commit_plan_task_graph.cpp:246-265 | No schedule that respects the edges has fewer waves |
| Layering.BuildLayers | src/cpp/code/systems/kano_git_command/commit_plan/private/commit_plan_task_graph.cpp:237-265 | The in-degree loop computes the layers of the edge relation, each sorted by the comparator |
| Layering.PotentialForbidsCycle | src/cpp/code/systems/kano_git_command/commit_plan/private/commit_plan_task_graph.cpp:201-217 | A rank that grows along every edge rules cycles out |
| TaskOrder.ScheduleOrdersCommits | src/cpp/code/systems/kano_git_command/commit_plan/private/commit_plan_task_graph.cpp:168-279 | Whatever the dependencies say, for canonical spelling and one runbook per repository, commits of a repository keep their order and every commit of a nested repository precedes those of its ancestors |
| TaskOrder.EdgesOrderCommits | src/cpp/code/systems/kano_git_command/commit_plan/private/commit_plan_task_graph.cpp:168-217 | Without a cycle both orders hold for any records and runbooks |
| TaskOrder.EdgesOrderDependents | src/cpp/code/systems/kano_git_command/commit_plan/private/commit_plan_task_graph.cpp:179-199 | Without a cycle every commit of a record precedes every commit of each record that its dependency entries resolve to |
| TaskOrder.FallbackChildrenFirst | src/cpp/code/systems/kano_git_command/commit_plan/private/commit_plan_task_graph.cpp:219-279 | In the fallback children come first if and only if the depth of the records as spelled grows along nesting |
| TaskOrder.FallbackRepoOrder | src/cpp/code/systems/kano_git_command/commit_plan/private/commit_plan_task_graph.cpp:219-279 | In the fallback the commits of a repository keep their order when they are numbered in that order |
| TaskOrder.CanonicalDepthGrows | src/cpp/code/systems/kano_git_command/commit_plan/private/commit_plan_task_graph.cpp:14-23 | A canonical path is deeper than every path it lies below |
| TaskOrder.DetourSpelled | src/cpp/code/systems/kano_git_command/commit_plan/private/commit_plan_task_graph.cpp:219-228 | A directory entered and left again through .. adds two to the depth of every path and nothing to its key |
| TaskOrder.SpelledDepthCounterexample | src/cpp/code/systems/kano_git_command/commit_plan/private/commit_plan_task_graph.cpp:219-235 | A dependency cycle with a parent spelled through .. deeper than its child, where the fallback cannot put the child first |
| TaskOrder.NestingNeverCycles | src/cpp/code/systems/kano_git_command/commit_plan/private/commit_plan_task_graph.cpp:201-217 | Dependencies that only name shorter paths, or none, never trigger the fallback |
| GitlinkAmend.BuildNestedRepoWaves | src/cpp/code/systems/kano_git_command/commit_plan/private/commit_push_post_sync.cpp:308-364 | Every repository in exactly one wave, strictly after all repositories below it; the cyclic fallback is never taken |
| GitlinkAmend.NestingHasNoCycle | src/cpp/code/systems/kano_git_command/commit_plan/private/commit_push_post_sync.cpp:131-139 | Path nesting has no cycle |
| GitlinkState.FoundPaths | src/cpp/code/systems/kano_git_command/commit_plan/private/commit_push_post_sync.cpp:275-306 | When everything below a repository has been looked at, the pass finds in it exactly the in-scope submodules that are still stale or whose tree was going to stay changed when the pass began |
| GitlinkState.PassDecides | src/cpp/code/systems/kano_git_command/commit_plan/private/commit_push_post_sync.cpp:545-588 | A finished pass has converged if and only if no candidate without other changes shows, in scope, a submodule whose tree stays changed, as computed from the state before the pass |
| GitlinkState.StuckTheSame | src/cpp/code/systems/kano_git_command/commit_plan/private/commit_push_post_sync.cpp:540-600 | A pass neither frees a stuck workspace nor makes one stuck |
| GitlinkState.OnlyPointersConverge | src/cpp/code/systems/kano_git_command/commit_plan/private/commit_push_post_sync.cpp:540-600 | A workspace in which only pointers changed, all of them in scope of a candidate, is not stuck |
| GitlinkState.EditedSubmoduleIsStuck | src/cpp/code/systems/kano_git_command/commit_plan/private/commit_push_post_sync.cpp:279-306 | A submodule with edits of its own at the recorded HEAD is shown by its parent and is stuck |
| GitlinkAmend.RunPass | src/cpp/code/systems/kano_git_command/commit_plan/private/commit_push_post_sync.cpp:545-588 | One child-first pass converges exactly when the workspace is not stuck, then commits each repository at most once, and changes something exactly when it had not converged before |
| GitlinkAmend.AutoAmendGitlinkOnlyRepos | src/cpp/code/systems/kano_git_command/commit_plan/private/commit_push_post_sync.cpp:540-600 | Success if and only if no Git command fails and the workspace was not stuck before; then it has converged after at most one changing pass with each repository committed at most once. A stuck one on which no command fails is amended in every pass and refused |
| PlanRewrite.RewriteConditionally | src/cpp/code/systems/kano_git_command/commit_plan/private/commit_plan_source_rewrite.cpp:478-592 | Success: the file held the replacement while its path named it, the audit bound it, and only others wrote since. Before the write nothing is changed. A failed write or a refused replacement is rolled back to the expected bytes or reported corrupt. Without confirmation not one further byte is written |
| PlanRewrite.ReadPosixHandle | src/cpp/code/systems/kano_git_command/commit_plan/private/commit_plan_source_rewrite.cpp:394-428 | A successful read is the whole content at one instant, under short reads, interruptions and writers between any two calls |
| PlanRewrite.WritePosixHandle | src/cpp/code/systems/kano_git_command/commit_plan/private/commit_plan_source_rewrite.cpp:435-459 | Under short writes and interruptions: without other writers success makes the file exactly the bytes, and failure leaves a prefix of them written |
| PlanRewrite.PwriteAll | src/cpp/code/systems/kano_git_command/commit_plan/private/commit_plan_source_rewrite.cpp:435-453 | The loop of short writes adds up to one write of all bytes |
| PlanRewrite.RestorePosixHandleAfterFailure | src/cpp/code/systems/kano_git_command/commit_plan/private/commit_plan_source_rewrite.cpp:461-476 | The expected bytes are back, or corruption is reported |
| PlanPipeline.RunPlanPipeline | src/cpp/code/systems/kano_git_command/commit_plan/private/commit_push_cmd.cpp:2011-2374 | Exit 0: the trace is the complete one in order with all codes 0, the file showed this run's stamp under its path, only others wrote since, and the audit closed with 0. Any other exit has a cause that fixes its code: the code of the last step when its entry is in the log (2 for a push whose audit end fails), 2 when the entry is missing (3 for the placeholder refusal), 2 when source, plan or status cannot be read, the source moved, or the end of the audit fails; an audit that is closed is closed with the exit, and the steps before the last one are those of the trace. Such exits leave no stamp of the run unless the report says so |
| PlanPipeline.CompleteTraceIs | src/cpp/code/systems/kano_git_command/commit_plan/private/commit_push_cmd.cpp:2011-2374 | The complete trace, step by step: lock, gates, clear; with changes commit, a sync of every repository in order and the post-sync commit if planned; then a push of every repository in order, and the stamp |
| PlanPipeline.ClearStampForRun | src/cpp/code/systems/kano_git_command/commit_plan/private/commit_push_cmd.cpp:1368-1436 | Success puts the cleared plan in place; a failed audit entry takes the clear back or reports it; the trace gains exactly the clear step, and a failure is that step's or its entry's |
| PlanPipeline.StampAndFinish | src/cpp/code/systems/kano_git_command/commit_plan/private/commit_push_cmd.cpp:2297-2374 | The stamp stays only if its entry and the end of the audit both succeed; otherwise the execution bytes are restored or the report says not |
| PlanPipeline.RunStages | src/cpp/code/systems/kano_git_command/commit_plan/private/commit_push_cmd.cpp:2137-2292 | Commit, sync, post-sync and push run and are logged in order, and the first failure ends the run with the code of the stage that failed, or with 2 when its entry could not be appended or a failed push's audit cannot be ended |
| PlanPipeline.AdmitRun | src/cpp/code/systems/kano_git_command/commit_plan/private/commit_plan_execution_admission.cpp:583-670 | The run goes on only with the lock, the reserved bytes still in the file, an entry for both, and passing gates; a refusal has its step, its entry and its code as its cause says |
| PlanPayload.PayloadCarriesStamp | src/cpp/code/systems/kano_git_command/commit_plan/private/commit_push_cmd.cpp:1325-1366 | The payload carries the stamp, everything else in the plan is unchanged, and stamping again changes nothing |
| PlanPayload.LastStampWins | src/cpp/code/systems/kano_git_command/commit_plan/private/commit_push_cmd.cpp:1325-1366 | Stamping a stamped plan leaves the plan with the last stamp, as the JSON library prints it |
| PlanRuns.AtMostOneStamp | src/cpp/code/systems/kano_git_command/commit_plan/private/commit_push_cmd.cpp:2297-2372 | Of any number of interleaved runs that reserved the same bytes with fresh timestamps, at most one has its stamp in the source; between rewrites, unless one was torn by a death or a failed rollback, the source carries exactly that run's stamp |
| PlanRuns.OthersNeverExecute | src/cpp/code/systems/kano_git_command/commit_plan/private/commit_plan_execution_admission.cpp:441-670 | Once a run has stamped, no run of another thread that got the same lock is admitted, clears, executes or stamps; one that gets any lock later is turned away by the revalidation; and if clearing changes the plan no other run at all is past its clear |
| PlanRuns.SameRootExcludes | src/cpp/code/systems/kano_git_command/commit_plan/private/commit_plan_execution_admission.cpp:147-199 | The same for runs started from one workspace root, when no thread works for two roots |
| PlanRuns.RunsLockOwnRoot | src/cpp/code/systems/kano_git_command/commit_plan/private/commit_plan_execution_admission.cpp:441-470 | When no thread works for two roots, every run gets the lock of its own root |
| PlanRuns.FinishedStampStays | src/cpp/code/systems/kano_git_command/commit_plan/private/commit_push_cmd.cpp:2297-2372 | After a run has finished with its stamp in the source, the source never changes again |
| PlanRuns.BothStampedOnlyIfRecleared | src/cpp/code/systems/kano_git_command/commit_plan/private/commit_plan_audit.cpp:171-185 | In any history two runs that reserved the same bytes have both stamped only if a run that reserved the plan as one of them stamped it began to clear that stamp |
| PlanRuns.StampShutsOthersOut | src/cpp/code/systems/kano_git_command/commit_plan/private/commit_plan_execution_admission.cpp:441-670 | In any history without such a clear: a stamp keeps the runs of other threads that reserved the same bytes and got the same lock out, and the revalidation refuses all others |
| PlanReentry.BothFinishWhenRecleared | src/cpp/code/systems/kano_git_command/commit_plan/private/commit_push_cmd.cpp:1368-1436 | For every faithful JSON library and every cleared plan as it prints it there is a history, with no torn rewrite, in which two runs that reserved it both finish with their stamp, a third having cleared the first stamp |
| PlanRestamps.BothStampIffPrintedCleared | src/cpp/code/systems/kano_git_command/commit_plan/private/commit_push_cmd.cpp:1325-1436 | Without a torn rewrite, some history has two runs on the same reserved bytes both stamp if and only if these bytes are a cleared plan as the JSON library prints it |
| PlanRestamps.StepKeepsAway | src/cpp/code/systems/kano_git_command/commit_plan/private/commit_plan_source_rewrite.cpp:478-592 | Every step keeps, for all other reserved bytes: at most one run has taken the source away from them, and no rewrite but its own undo brings them back |
| PlanRuns.OneThreadExecutes | src/cpp/code/systems/kano_git_command/commit_plan/private/commit_plan_execution_admission.cpp:441-548 | Two runs between acquire and release have the same lock if and only if they are of one thread; each lock counts its tokens and is free exactly when none is left; at most one run is rewriting the plan file |
| PlanReentry.TwoPastClearIffCleared | src/cpp/code/systems/kano_git_command/commit_plan/private/commit_push_cmd.cpp:1388-1404 | Two runs can be past their clear at once if and only if the reserved plan is cleared already: on one thread, sharing a lock, and on two threads, with the locks of two roots |
| PlanReentry.SecondFinishes | src/cpp/code/systems/kano_git_command/commit_plan/private/commit_plan_execution_admission.cpp:147-199 | On a cleared plan a second run, of the same thread or from another root, may finish and stamp while the first goes on executing; the first one can then not stamp |
| PlanReentry.OneRootTwoLocks | src/cpp/code/systems/kano_git_command/commit_plan/private/commit_plan_execution_admission.cpp:441-464 | The locks a thread has are looked up by plan alone, so runs of one root on two threads can hold two locks and execute together on a cleared plan |
| PlanStamps.OnlyUndoBegins | src/cpp/code/systems/kano_git_command/commit_plan/private/commit_plan_source_rewrite.cpp:478-551 | Compare under the file lock: while a stamp stands only its own run can begin a rewrite |
| PlanStamps.RevalidationRefuses | src/cpp/code/systems/kano_git_command/commit_plan/private/commit_plan_audit.cpp:171-185 | A run whose reserved bytes have been stamped by another is turned away after taking the lock |
| PlanStamps.StepKeepsStands | src/cpp/code/systems/kano_git_command/commit_plan/private/commit_plan_source_rewrite.cpp:478-592 | Every step, partial writes, rollbacks and deaths included, keeps a stamp that stands, except a new clear of it or its own undo |
| PlanStamps.StepKeepsShutOut | src/cpp/code/systems/kano_git_command/commit_plan/private/commit_plan_execution_admission.cpp:441-548 | Every step keeps: while a stamp stands only runs of its own thread are at work with its lock |
| PlanFields.FindsFirstInDocumentOrder | src/cpp/code/systems/kano_git_command/commit_plan/private/commit_plan_payload.cpp:100-120 | On every printed document the key search returns the value position of the first member with that key in document order, at any depth, or nothing |
| JsonScanning.SearchValue | src/cpp/code/systems/kano_git_command/commit_plan/private/commit_plan_payload.cpp:100-120 | Searching across a printed value finds the first key inside it, else goes on behind it: string values and quotes inside strings never count as keys |
| JsonScanning.StringReadBack | src/cpp/code/systems/kano_git_command/commit_plan/private/commit_plan_payload.cpp:74-98 | A printed string literal is read back as the string it denotes, and the scanner ends right behind it |
| JsonBrackets.ObjectBodyReadBack | src/cpp/code/systems/kano_git_command/commit_plan/private/commit_plan_payload.cpp:122-160 | For every printed object the text between the outer braces comes back exactly |
| JsonBrackets.ArrayBodyReadBack | src/cpp/code/systems/kano_git_command/commit_plan/private/commit_plan_payload.cpp:122-160 | For every printed array the text between the outer brackets comes back exactly |
| JsonBrackets.SplitsIntoObjects | src/cpp/code/systems/kano_git_command/commit_plan/private/commit_plan_payload.cpp:180-219 | Splitting the body of any printed array gives the outermost objects in it, printed, in order |
| JsonBrackets.ArrayOfObjects | src/cpp/code/systems/kano_git_command/commit_plan/private/commit_plan_payload.cpp:180-219 | For an array of objects these are its elements |
| PlanFields.ExtractorsReadDocument | src/cpp/code/systems/kano_git_command/commit_plan/private/commit_plan_payload.cpp:162-232 | Object, array and string lookup return exactly the first keyed value when it has that kind, else nothing |
| PlanFields.StageObjects | src/cpp/code/systems/kano_git_command/commit_plan/private/commit_plan_payload.cpp:288-290 | The entries of a stage array come back as the printed objects in order |
| StageEntries.ParseStageEntries | src/cpp/code/systems/kano_git_command/commit_plan/private/commit_plan_payload.cpp:288-330 | The nested loops compute the reading of a stage array: entries with a repository and at least one commit with a message |
| StageEntries.StageFindsOwnIffClean | src/cpp/code/systems/kano_git_command/commit_plan/private/commit_plan_payload.cpp:288-330 | Every lookup made in a printed stage ends at the member it is meant for if and only if no value before it holds the key; then the stage reads back as declared, with repositories, commits, lists and reviews in order |
| PlanFields.LookupReadsOwnMember | src/cpp/code/systems/kano_git_command/commit_plan/private/commit_plan_payload.cpp:221-232 | A lookup in an object finds its own member if and only if no value listed before it contains the key |
| PlanFields.NestedFieldWins | src/cpp/code/systems/kano_git_command/commit_plan/private/commit_plan_payload.cpp:288-294 | An entry whose first value has the key inside: the lookup returns the inner string, whatever the entry's own one is |
| StringLists.ListReadsDocument | src/cpp/code/systems/kano_git_command/commit_plan/private/commit_plan_payload.cpp:258-286 | In a document with any of the four white-space characters of RFC 8259, section 2, around its tokens, a string list reads as the normalised non-empty strings at the front of the first array under the key, up to the first element of another kind |
| StringLists.OnlyStringsReadBack | src/cpp/code/systems/kano_git_command/commit_plan/private/commit_plan_payload.cpp:258-286 | A list of strings that need no repair comes back exactly |
| StringLists.ExtractStringArrayForKey | src/cpp/code/systems/kano_git_command/commit_plan/private/commit_plan_payload.cpp:258-286 | The list loop computes that reading |
| JsonEscapes.WrittenAndReadBack | src/cpp/code/systems/kano_git_command/commit_plan/private/commit_plan_payload.cpp:33-60 | A string written with the escapes of RFC 8259 section 7 is read back equal if and only if it has no control character but newline, return and tab |
| Scanners.UnescapeJsonString | src/cpp/code/systems/kano_git_command/commit_plan/private/commit_plan_payload.cpp:33-60 | The loop computes the decoding of a raw literal |
| Scanners.ParseJsonStringAt | src/cpp/code/systems/kano_git_command/commit_plan/private/commit_plan_payload.cpp:74-98 | The loop finds the closing quote and decodes what is before it |
| Scanners.FindJsonKeyValueStart | src/cpp/code/systems/kano_git_command/commit_plan/private/commit_plan_payload.cpp:100-120 | The loop computes the key search |
| Scanners.ExtractBracketBody | src/cpp/code/systems/kano_git_command/commit_plan/private/commit_plan_payload.cpp:122-160 | The loop finds the matching bracket outside strings |
| Scanners.SplitTopLevelObjects | src/cpp/code/systems/kano_git_command/commit_plan/private/commit_plan_payload.cpp:180-219 | The loop computes the split into outermost objects |
| SubmoduleDiscovery.DiscoverRegisteredPaths | src/cpp/code/systems/kano_git_command/commit_plan/private/commit_ai_utils.cpp:1290-1339 | Ends on every registration relation, cyclic ones too, and returns exactly the paths reachable from the root, strictly sorted |
| SubmoduleDiscovery.ClosedContains | src/cpp/code/systems/kano_git_command/commit_plan/private/commit_ai_utils.cpp:1290-1339 | What is closed under registration contains everything reachable |
| DirtyScope.FilterDirty | src/cpp/code/systems/kano_git_command/commit_plan/private/commit_ai_utils.cpp:1869-1915 | With room for any number of nested calls: the filter ends only when the dependencies have no cycle, and then as many calls as repositories are enough; it keeps, in order, exactly the repositories with changes or a dependent that has some |
| DirtyScope.KeepNode | src/cpp/code/systems/kano_git_command/commit_plan/private/commit_ai_utils.cpp:1882-1897 | The memoised recursion ends exactly at nodes without an endless chain of dependents, answers whether a dirty dependent exists, and every memo entry it sets is right |
| EditDistance.ComputeEditDistance | src/cpp/code/apps/kano_git_cli/main.cpp:142-169 | The filled table gives the distance of the two strings |
| EditDistance.DistanceIsMinimumCost | src/cpp/code/apps/kano_git_cli/main.cpp:142-169 | The distance is reached by some optimal-string-alignment script and no script costs less |
| EditDistance.DistanceIsSymmetric | src/cpp/code/apps/kano_git_cli/main.cpp:142-169 | The distance is symmetric |
| EditDistance.DistanceBounds | src/cpp/code/apps/kano_git_cli/main.cpp:142-169 | Zero exactly on equal strings, at least the length difference, at most the longer length |
| EditDistance.ScriptsCompose | src/cpp/code/apps/kano_git_cli/main.cpp:142-169 | Two scripts without swaps, one after the other, are one script that costs no more |
| EditDistance.TriangleWithoutSwaps | src/cpp/code/apps/kano_git_cli/main.cpp:142-169 | The triangle inequality holds whenever each leg has a cheapest script without a swap |
| EditDistance.TriangleFails | src/cpp/code/apps/kano_git_cli/main.cpp:160-165 | It can fail when a leg needs a swap |
| DecimalRange.IsPositiveInt32 | src/cpp/code/apps/kano_git_cli/main.cpp:269-294 | Accepts exactly the non-empty digit strings whose value is in 1..2147483647 |
| DecimalRange.LexicographicIsNumeric | src/cpp/code/apps/kano_git_cli/main.cpp:293 | Equally long digit strings compare like their values |
| DecimalRange.ShorterIsSmaller | src/cpp/code/apps/kano_git_cli/main.cpp:287-292 | Without leading zeros fewer digits mean a smaller value |

## Left out

- Windows branches of the lock, rewrite and mode code: other system calls, other rollback rule.
- Real Git processes, hooks, signing, clean filters and attribute trees: Git is the abstract repository; the clean filter and `merge-file` are uninterpreted functions.
- NormalizePaths: a gitlink is a file whose text is the commit id it records, so a tracked gitlink path whose directory holds plain files instead of a repository is refused as a directory here.
- RunCooperativeOverlapCommit: an unsafe checkpoint id, a queue batch named beside it and an unreadable manifest are one case, no manifest. It starts behind the checks of the exact-path commit (queue lock, batch, HEAD, unmerged index), which are modelled there.
- NormalizePaths's calls of `ls-files` are taken to succeed; a failing one reads as not tracked.
- Pathspec magic (globs) and path canonicalisation: selectors and paths are the canonical relative paths they denote.
- Secret rules, regular expressions, binary detection, ignore gates, AI providers and prompt building: uninterpreted predicates or absent.
- Checkpoint capture (`RunCheckpointCapture`, `PinCheckpointSnapshots`) and the recovery ref: the overlap commit takes the manifest as data and rechecks it as the code does.
- The reads at the start of an exact-path commit are one instant, and so are the steps that stage its temporary index; the working files are not edited between the two.
- The reads at the start of an overlap commit are one instant too, up to its comparison with the manifest; later each recheck of HEAD, branch and index is one, and so is each look at one working file, which takes its text and its mode together.
- Checkpoint refs and their worktrees are changed by this program only.
- Timestamps of a file are taken to change with every change of its content, and a system call is interrupted finitely often.
- A status or `ls-tree` read that fails is an error path of the commits; in the gitlink pass, `git status` is taken to succeed, since a failing one reads as clean there.
- In the gitlink pass the index of a repository holds nothing staged but what the pass adds, a commit that stages something gives an id no repository has recorded, and changes of a repository's own stay as they are while it runs.
- `ResolveRepoMessages`: the commit messages of each repository are a parameter of the runbooks.
- `BuildExecutionWaves`: the same layering loop as the commit task graph over fewer edges.
- `BuildExplicitCommitScopeRecords`, `AddDirtyNestedReposFromRootStatus` and `FinalizeCommitScopeRecords`: record bookkeeping around the dirty filter.
- `SuggestSimilarCommands`: ranking by the distance that is modelled.
- JSON text is a sequence of characters; `\u` escapes stay as they are, as in the code, and bytes above ASCII are not interpreted.
- The resolved frozen plan, correlation envelopes and SHA-256 in the audit: the sink is reserved bytes, a log, bound states and a final code. A sink nested in an outer audit owner is not modelled.
- Locks die with their thread in `PlanLocking`; a process that dies is all its threads dying. Every writer of the plan file takes its advisory lock, as the program asks of all cooperating writers; editors and hostile writers are in `PlanRewrite` only. A reservation or revalidation reads the file at one instant.
- Command-line registration, console output, timing, test-only hooks and wall-clock values.
