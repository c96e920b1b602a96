/** The commit task scheduler: tasks, their edges, and waves or the single-file fallback. */
module TaskGraph {
  import opened Text
  import opened Sorting
  import opened Layering

  // One task per planned commit; edges for commit order inside a repository, for declared
  // dependencies and for path nesting; a sorted single file when the edges form a cycle.

  datatype CommitItem = CommitItem(message: string, includes: seq<string>, excludes: seq<string>)

  /** `key` is the canonical path text; `depth` counts the parts of the path as it was spelled. */
  datatype RepoRecord = RepoRecord(key: string, depth: nat, dependencies: seq<string>)

  datatype Runbook = Runbook(repoRecordIndex: nat, commits: seq<CommitItem>, valid: bool)

  datatype Task = Task(repo: nat, commitIndex: nat, commitCount: nat, commit: CommitItem)

  datatype CommitTaskGraph = CommitTaskGraph(tasks: seq<Task>, waves: seq<seq<nat>>, dependencyCycleDetected: bool)

  // ---------------------------------------------------------------- runbooks

  predicate Unscoped(item: CommitItem) {
    item.includes == [] && item.excludes == []
  }

  predicate RejectedRunbook(commits: seq<CommitItem>, planMode: bool) {
    planMode && |commits| > 1 && exists i :: 0 <= i < |commits| && Unscoped(commits[i])
  }

  ghost predicate OneRunbookPerRepo(runbooks: seq<Runbook>) {
    forall i, j :: 0 <= i < j < |runbooks| ==> runbooks[i].repoRecordIndex != runbooks[j].repoRecordIndex
  }

  /** `resolved[r]` holds the commit messages found for record `r`. */
  method BuildRepoCommitRunbooks(resolved: seq<seq<CommitItem>>, planMode: bool) returns (out: seq<Runbook>)
    ensures |out| == |resolved| && OneRunbookPerRepo(out)
    ensures forall r :: 0 <= r < |out| ==>
      && out[r].repoRecordIndex == r
      && (out[r].valid <==> !RejectedRunbook(resolved[r], planMode))
      && out[r].commits == if out[r].valid then resolved[r] else []
  {
    out := [];
    for r := 0 to |resolved|
      invariant |out| == r
      invariant forall q :: 0 <= q < r ==>
        && out[q].repoRecordIndex == q
        && (out[q].valid <==> !RejectedRunbook(resolved[q], planMode))
        && out[q].commits == if out[q].valid then resolved[q] else []
    {
      var hasUnscoped := false;
      if planMode && |resolved[r]| > 1 {
        var i := 0;
        while i < |resolved[r]| && !hasUnscoped
          invariant 0 <= i <= |resolved[r]|
          invariant hasUnscoped <==> exists k :: 0 <= k < i && Unscoped(resolved[r][k])
        {
          hasUnscoped := Unscoped(resolved[r][i]);
          i := i + 1;
        }
      }
      out := out + [if hasUnscoped then Runbook(r, [], false) else Runbook(r, resolved[r], true)];
    }
  }

  // ---------------------------------------------------------------- tasks

  function RunbookTasks(rb: Runbook): seq<Task> {
    var commits := if rb.valid then rb.commits else [];
    seq(|commits|, i requires 0 <= i < |commits| => Task(rb.repoRecordIndex, i, |commits|, commits[i]))
  }

  function TasksOf(runbooks: seq<Runbook>): seq<Task> {
    if runbooks == [] then []
    else TasksOf(runbooks[..|runbooks| - 1]) + RunbookTasks(runbooks[|runbooks| - 1])
  }

  /** Commit `c` of runbook `b` is to be made. */
  predicate Planned(runbooks: seq<Runbook>, b: nat, c: nat) {
    b < |runbooks| && runbooks[b].valid && c < |runbooks[b].commits|
  }

  /** The task of that commit says which one it is, of how many, in which repository. */
  predicate TaskFor(runbooks: seq<Runbook>, task: Task, b: nat, c: nat) {
    && Planned(runbooks, b, c)
    && task == Task(runbooks[b].repoRecordIndex, c, |runbooks[b].commits|, runbooks[b].commits[c])
  }

  predicate Earlier(p: (nat, nat), q: (nat, nat)) {
    p.0 < q.0 || (p.0 == q.0 && p.1 < q.1)
  }

  predicate Origin(from: seq<(nat, nat)>, v: nat, b: nat, c: nat) {
    v < |from| && from[v] == (b, c)
  }

  /** The tasks are the planned commits, each exactly once, runbook by runbook; `from` says which is which. */
  ghost predicate TasksFrom(runbooks: seq<Runbook>, tasks: seq<Task>, from: seq<(nat, nat)>) {
    && |from| == |tasks|
    && (forall v :: 0 <= v < |tasks| ==> TaskFor(runbooks, tasks[v], from[v].0, from[v].1))
    && (forall u, v :: 0 <= u < v < |tasks| ==> Earlier(from[u], from[v]))
    && forall b: nat, c: nat :: Planned(runbooks, b, c) ==> exists v: nat :: Origin(from, v, b, c)
  }

  /** One runbook more: its commits come behind. */
  lemma RunbookFrom(runbooks: seq<Runbook>, tasks: seq<Task>, from: seq<(nat, nat)>) returns (longer: seq<(nat, nat)>)
    requires runbooks != [] && TasksFrom(runbooks[..|runbooks| - 1], tasks, from)
    ensures TasksFrom(runbooks, tasks + RunbookTasks(runbooks[|runbooks| - 1]), longer)
  {
    var n := |runbooks| - 1;
    var more := RunbookTasks(runbooks[n]);
    longer := from + seq(|more|, c => (n, c));
    forall b: nat, c: nat | Planned(runbooks, b, c) ensures exists v: nat :: Origin(longer, v, b, c) {
      if b < n {
        assert Planned(runbooks[..n], b, c);
        var v: nat :| Origin(from, v, b, c);
        assert Origin(longer, v, b, c);
      } else {
        assert Origin(longer, |from| + c, b, c);
      }
    }
    forall v: nat | v < |tasks| ensures TaskFor(runbooks, tasks[v], from[v].0, from[v].1) && from[v].0 < n {
      assert TaskFor(runbooks[..n], tasks[v], from[v].0, from[v].1);
    }
  }

  lemma {:induction false} TasksFromRunbooks(runbooks: seq<Runbook>) returns (from: seq<(nat, nat)>)
    ensures TasksFrom(runbooks, TasksOf(runbooks), from)
  {
    if runbooks == [] {
      from := [];
    } else {
      var front := TasksFromRunbooks(runbooks[..|runbooks| - 1]);
      from := RunbookFrom(runbooks, TasksOf(runbooks[..|runbooks| - 1]), front);
    }
  }

  /** Every planned commit is in exactly one wave, as exactly one task. */
  lemma EachCommitOnce(runbooks: seq<Runbook>, tasks: seq<Task>, from: seq<(nat, nat)>, waves: seq<seq<nat>>,
                       b: nat, c: nat)
    requires TasksFrom(runbooks, tasks, from) && Covers(|tasks|, waves) && Planned(runbooks, b, c)
    ensures exists v: nat, k: nat :: Origin(from, v, b, c) && InWave(waves, k, v)
    ensures forall v: nat, k: nat, u: nat, j: nat ::
      Origin(from, v, b, c) && InWave(waves, k, v) && Origin(from, u, b, c) && InWave(waves, j, u) ==> u == v && j == k
  {
    var v: nat :| Origin(from, v, b, c);
    assert Scheduled(waves, v);
    var k: nat :| InWave(waves, k, v);
    assert Origin(from, v, b, c) && InWave(waves, k, v);
    forall u: nat | Origin(from, u, b, c) ensures u == v {
    }
  }

  /** The commit tasks of record `r`, in creation order. */
  function TaskIndices(tasks: seq<Task>, r: nat): seq<nat> {
    if tasks == [] then []
    else TaskIndices(tasks[..|tasks| - 1], r) + if tasks[|tasks| - 1].repo == r then [|tasks| - 1] else []
  }

  function TaskLists(n: nat, tasks: seq<Task>): seq<seq<nat>> {
    seq(n, r requires 0 <= r < n => TaskIndices(tasks, r))
  }

  lemma {:induction false} TaskIndicesAre(tasks: seq<Task>, r: nat)
    ensures forall v: nat :: v in TaskIndices(tasks, r) <==> v < |tasks| && tasks[v].repo == r
    ensures forall i, j :: 0 <= i < j < |TaskIndices(tasks, r)| ==> TaskIndices(tasks, r)[i] < TaskIndices(tasks, r)[j]
  {
    if tasks != [] {
      var front := tasks[..|tasks| - 1];
      TaskIndicesAre(front, r);
      var s := TaskIndices(front, r);
      assert forall i :: 0 <= i < |s| ==> s[i] in s;
      forall v: nat ensures v in TaskIndices(tasks, r) <==> v < |tasks| && tasks[v].repo == r {
        assert v < |front| ==> front[v] == tasks[v];
      }
    }
  }

  ghost predicate RunbooksInRange(runbooks: seq<Runbook>, n: nat) {
    forall i :: 0 <= i < |runbooks| && runbooks[i].valid && runbooks[i].commits != [] ==> runbooks[i].repoRecordIndex < n
  }

  ghost predicate TasksInRange(tasks: seq<Task>, n: nat) {
    forall t :: 0 <= t < |tasks| ==> tasks[t].repo < n
  }

  lemma PushTask(n: nat, tasks: seq<Task>, task: Task)
    requires task.repo < n
    ensures TaskLists(n, tasks + [task]) ==
      TaskLists(n, tasks)[task.repo := TaskLists(n, tasks)[task.repo] + [|tasks|]]
  {
    var after := tasks + [task];
    assert after[..|tasks|] == tasks;
    forall r: nat | r < n
      ensures TaskIndices(after, r) == TaskIndices(tasks, r) + if r == task.repo then [|tasks|] else []
    {
      assert after[|after| - 1] == task;
    }
    var lists := TaskLists(n, tasks);
    var expected := lists[task.repo := lists[task.repo] + [|tasks|]];
    assert forall r :: 0 <= r < n ==> TaskLists(n, after)[r] == expected[r];
  }

  method CollectTasks(n: nat, runbooks: seq<Runbook>) returns (tasks: seq<Task>, repoTaskIndices: seq<seq<nat>>)
    requires RunbooksInRange(runbooks, n)
    ensures tasks == TasksOf(runbooks) && TasksInRange(tasks, n)
    ensures repoTaskIndices == TaskLists(n, tasks)
    ensures exists from :: TasksFrom(runbooks, tasks, from)
  {
    tasks, repoTaskIndices := [], seq(n, r => []);
    for b := 0 to |runbooks|
      invariant tasks == TasksOf(runbooks[..b]) && TasksInRange(tasks, n)
      invariant repoTaskIndices == TaskLists(n, tasks)
    {
      assert runbooks[..b + 1][..b] == runbooks[..b];
      var rb := runbooks[b];
      if rb.valid && rb.commits != [] {
        assert RunbookTasks(rb) != [];
        ghost var base := tasks;
        for c := 0 to |rb.commits|
          invariant tasks == base + RunbookTasks(rb)[..c] && TasksInRange(tasks, n)
          invariant repoTaskIndices == TaskLists(n, tasks)
        {
          var task := Task(rb.repoRecordIndex, c, |rb.commits|, rb.commits[c]);
          PushTask(n, tasks, task);
          var r := rb.repoRecordIndex;
          repoTaskIndices := repoTaskIndices[r := repoTaskIndices[r] + [|tasks|]];
          tasks := tasks + [task];
        }
      }
    }
    assert runbooks[..|runbooks|] == runbooks;
    ghost var from := TasksFromRunbooks(runbooks);
  }

  // ---------------------------------------------------------------- edges

  function Last(s: seq<nat>): nat
    requires s != []
  {
    s[|s| - 1]
  }

  ghost function Link(list: seq<nat>, i: int): (nat, nat)
    requires 1 <= i < |list|
  {
    (list[i - 1], list[i])
  }

  /** Commits of one repository follow each other. */
  ghost function ChainOf(list: seq<nat>, upTo: int): Edges
    requires upTo <= |list|
  {
    set i | 1 <= i < upTo :: Link(list, i)
  }

  ghost function ChainEdges(lists: seq<seq<nat>>, upTo: nat): Edges
    requires upTo <= |lists|
  {
    set r, p | 0 <= r < upTo && p in ChainOf(lists[r], |lists[r]|) :: p
  }

  /** The first record with this key, as std::unordered_map::emplace keeps it. */
  ghost predicate FirstWithKey(records: seq<RepoRecord>, key: string, r: nat) {
    r < |records| && records[r].key == key && forall q :: 0 <= q < r ==> records[q].key != key
  }

  ghost predicate ResolvesTo(records: seq<RepoRecord>, r: nat, d: nat, target: nat) {
    r < |records| && d < |records[r].dependencies| && FirstWithKey(records, records[r].dependencies[d], target)
  }

  /** A dependency entry: the last commit of the record precedes the first of its target. */
  ghost function DepEdge(records: seq<RepoRecord>, lists: seq<seq<nat>>, r: nat, d: nat): Edges
    requires |records| == |lists|
  {
    set target | 0 <= target < |records| && ResolvesTo(records, r, d, target) && target != r
      && lists[r] != [] && lists[target] != [] :: (Last(lists[r]), lists[target][0])
  }

  ghost function DepEdgesOf(records: seq<RepoRecord>, lists: seq<seq<nat>>, r: nat, upTo: nat): Edges
    requires |records| == |lists|
  {
    set d, p | 0 <= d < upTo && p in DepEdge(records, lists, r, d) :: p
  }

  ghost function DepEdges(records: seq<RepoRecord>, lists: seq<seq<nat>>, upTo: nat): Edges
    requires |records| == |lists| && upTo <= |records|
  {
    set r, p | 0 <= r < upTo && p in DepEdgesOf(records, lists, r, |records[r].dependencies|) :: p
  }

  /** Path nesting: the last commit of the inner repository precedes the first of the outer one. */
  ghost function NestEdge(records: seq<RepoRecord>, lists: seq<seq<nat>>, outer: nat, inner: nat): Edges
    requires |records| == |lists| && outer < |records| && inner < |records|
  {
    if outer != inner && lists[outer] != [] && lists[inner] != [] && IsBelow(records[outer].key, records[inner].key)
    then {(Last(lists[inner]), lists[outer][0])} else {}
  }

  ghost function NestEdgesOf(records: seq<RepoRecord>, lists: seq<seq<nat>>, outer: nat, upTo: nat): Edges
    requires |records| == |lists| && outer < |records| && upTo <= |records|
  {
    set inner, p | 0 <= inner < upTo && p in NestEdge(records, lists, outer, inner) :: p
  }

  ghost function NestEdges(records: seq<RepoRecord>, lists: seq<seq<nat>>, upTo: nat): Edges
    requires |records| == |lists| && upTo <= |records|
  {
    set outer, p | 0 <= outer < upTo && p in NestEdgesOf(records, lists, outer, |records|) :: p
  }

  /** The edge relation on commit tasks that the scheduler must honour. */
  ghost function TaskEdges(records: seq<RepoRecord>, tasks: seq<Task>): Edges {
    var lists := TaskLists(|records|, tasks);
    ChainEdges(lists, |lists|) + DepEdges(records, lists, |records|) + NestEdges(records, lists, |records|)
  }

  ghost predicate ListsOf(lists: seq<seq<nat>>, n: nat, tasks: seq<Task>) {
    |lists| == n && lists == TaskLists(n, tasks) && TasksInRange(tasks, n)
  }

  lemma ListFacts(lists: seq<seq<nat>>, n: nat, tasks: seq<Task>, r: nat)
    requires ListsOf(lists, n, tasks) && r < n
    ensures InRange(lists[r], |tasks|)
    ensures forall i :: 0 <= i < |lists[r]| ==> tasks[lists[r][i]].repo == r
    ensures forall i, j :: 0 <= i < j < |lists[r]| ==> lists[r][i] < lists[r][j]
    ensures forall v: nat :: v in lists[r] <==> v < |tasks| && tasks[v].repo == r
  {
    TaskIndicesAre(tasks, r);
    assert forall i :: 0 <= i < |lists[r]| ==> lists[r][i] in lists[r];
  }

  method AddChain(t: EdgeTable, list: seq<nat>)
    requires t.Valid() && t.released == {} && InRange(list, |t.outgoing|)
    requires forall i, j :: 0 <= i < j < |list| ==> list[i] < list[j]
    modifies t
    ensures t.Valid() && t.released == {} && |t.outgoing| == old(|t.outgoing|)
    ensures t.edges == old(t.edges) + ChainOf(list, |list|)
  {
    if |list| == 0 {
      return;
    }
    for i := 1 to |list|
      invariant t.Valid() && t.released == {} && |t.outgoing| == old(|t.outgoing|)
      invariant t.edges == old(t.edges) + ChainOf(list, i)
    {
      t.AddEdge(list[i - 1], list[i]);
      ChainGrows(list, i);
    }
  }

  lemma ChainGrows(list: seq<nat>, i: nat)
    requires 1 <= i < |list|
    ensures ChainOf(list, i + 1) == ChainOf(list, i) + {(list[i - 1], list[i])}
  {
    assert Link(list, i) == (list[i - 1], list[i]);
  }

  method IndexByPath(records: seq<RepoRecord>) returns (repoByPath: map<string, nat>)
    ensures Indexes(repoByPath, records)
  {
    repoByPath := map[];
    for i := 0 to |records|
      invariant forall k :: k in repoByPath ==> FirstWithKey(records, k, repoByPath[k])
      invariant forall r :: 0 <= r < i ==> records[r].key in repoByPath
      invariant forall k :: k in repoByPath ==> repoByPath[k] < i
    {
      if records[i].key !in repoByPath {
        repoByPath := repoByPath[records[i].key := i];
      }
    }
  }

  /** `repoByPath` finds the first record of every path. */
  ghost predicate Indexes(repoByPath: map<string, nat>, records: seq<RepoRecord>) {
    && (forall k :: k in repoByPath ==> FirstWithKey(records, k, repoByPath[k]))
    && forall q :: 0 <= q < |records| ==> records[q].key in repoByPath
  }

  /** One dependency entry. */
  method AddDependency(t: EdgeTable, records: seq<RepoRecord>, repoByPath: map<string, nat>,
                       lists: seq<seq<nat>>, r: nat, d: nat, ghost tasks: seq<Task>)
    requires t.Valid() && t.released == {} && |t.outgoing| == |tasks|
    requires ListsOf(lists, |records|, tasks) && r < |records| && lists[r] != [] && Indexes(repoByPath, records)
    requires d < |records[r].dependencies|
    modifies t
    ensures t.Valid() && t.released == {} && |t.outgoing| == |tasks|
    ensures t.edges == old(t.edges) + DepEdge(records, lists, r, d)
  {
    var dep := records[r].dependencies[d];
    if dep in repoByPath {
      var target := repoByPath[dep];
      OneTarget(records, lists, r, d, target);
      if target != r && lists[target] != [] {
        ListFacts(lists, |records|, tasks, r);
        ListFacts(lists, |records|, tasks, target);
        t.AddEdge(Last(lists[r]), lists[target][0]);
      }
    } else {
      NoTarget(records, lists, r, d);
    }
  }

  method AddDependencies(t: EdgeTable, records: seq<RepoRecord>, repoByPath: map<string, nat>,
                         lists: seq<seq<nat>>, r: nat, ghost tasks: seq<Task>)
    requires t.Valid() && t.released == {} && |t.outgoing| == |tasks|
    requires ListsOf(lists, |records|, tasks) && r < |records| && lists[r] != [] && Indexes(repoByPath, records)
    modifies t
    ensures t.Valid() && t.released == {} && |t.outgoing| == |tasks|
    ensures t.edges == old(t.edges) + DepEdgesOf(records, lists, r, |records[r].dependencies|)
  {
    for d := 0 to |records[r].dependencies|
      invariant t.Valid() && t.released == {} && |t.outgoing| == |tasks|
      invariant t.edges == old(t.edges) + DepEdgesOf(records, lists, r, d)
    {
      DepEdgesOfGrow(records, lists, r, d);
      AddDependency(t, records, repoByPath, lists, r, d, tasks);
    }
  }

  lemma DepEdgesOfGrow(records: seq<RepoRecord>, lists: seq<seq<nat>>, r: nat, d: nat)
    requires |records| == |lists|
    ensures DepEdgesOf(records, lists, r, d + 1) == DepEdgesOf(records, lists, r, d) + DepEdge(records, lists, r, d)
  {
  }

  lemma NoTarget(records: seq<RepoRecord>, lists: seq<seq<nat>>, r: nat, d: nat)
    requires |records| == |lists| && r < |records| && d < |records[r].dependencies|
    requires forall q :: 0 <= q < |records| ==> records[q].key != records[r].dependencies[d]
    ensures DepEdge(records, lists, r, d) == {}
  {
  }

  lemma OneTarget(records: seq<RepoRecord>, lists: seq<seq<nat>>, r: nat, d: nat, target: nat)
    requires |records| == |lists| && ResolvesTo(records, r, d, target)
    ensures DepEdge(records, lists, r, d) ==
      if target != r && lists[r] != [] && lists[target] != [] then {(Last(lists[r]), lists[target][0])} else {}
  {
    assert forall q: nat :: ResolvesTo(records, r, d, q) ==> q == target;
  }

  method AddNesting(t: EdgeTable, records: seq<RepoRecord>, lists: seq<seq<nat>>, outer: nat, ghost tasks: seq<Task>)
    requires t.Valid() && t.released == {} && |t.outgoing| == |tasks|
    requires ListsOf(lists, |records|, tasks) && outer < |records| && lists[outer] != []
    modifies t
    ensures t.Valid() && t.released == {} && |t.outgoing| == |tasks|
    ensures t.edges == old(t.edges) + NestEdgesOf(records, lists, outer, |records|)
  {
    for inner := 0 to |records|
      invariant t.Valid() && t.released == {} && |t.outgoing| == |tasks|
      invariant t.edges == old(t.edges) + NestEdgesOf(records, lists, outer, inner)
    {
      assert NestEdgesOf(records, lists, outer, inner + 1)
          == NestEdgesOf(records, lists, outer, inner) + NestEdge(records, lists, outer, inner);
      if outer != inner && lists[inner] != [] && IsBelow(records[outer].key, records[inner].key) {
        ListFacts(lists, |records|, tasks, inner);
        ListFacts(lists, |records|, tasks, outer);
        t.AddEdge(Last(lists[inner]), lists[outer][0]);
      }
    }
  }

  method AddAllChains(t: EdgeTable, lists: seq<seq<nat>>, ghost n: nat, ghost tasks: seq<Task>)
    requires t.Valid() && t.released == {} && |t.outgoing| == |tasks| && ListsOf(lists, n, tasks)
    modifies t
    ensures t.Valid() && t.released == {} && |t.outgoing| == |tasks|
    ensures t.edges == old(t.edges) + ChainEdges(lists, |lists|)
  {
    for r := 0 to |lists|
      invariant t.Valid() && t.released == {} && |t.outgoing| == |tasks|
      invariant t.edges == old(t.edges) + ChainEdges(lists, r)
    {
      ListFacts(lists, n, tasks, r);
      assert ChainEdges(lists, r + 1) == ChainEdges(lists, r) + ChainOf(lists[r], |lists[r]|);
      AddChain(t, lists[r]);
    }
  }

  lemma DepEdgesGrow(records: seq<RepoRecord>, lists: seq<seq<nat>>, r: nat)
    requires |records| == |lists| && r < |records|
    ensures DepEdges(records, lists, r + 1)
         == DepEdges(records, lists, r) + DepEdgesOf(records, lists, r, |records[r].dependencies|)
    ensures lists[r] == [] ==> DepEdgesOf(records, lists, r, |records[r].dependencies|) == {}
  {
  }

  lemma NestEdgesGrow(records: seq<RepoRecord>, lists: seq<seq<nat>>, outer: nat)
    requires |records| == |lists| && outer < |records|
    ensures NestEdges(records, lists, outer + 1)
         == NestEdges(records, lists, outer) + NestEdgesOf(records, lists, outer, |records|)
    ensures lists[outer] == [] ==> NestEdgesOf(records, lists, outer, |records|) == {}
  {
  }

  method AddAllDependencies(t: EdgeTable, records: seq<RepoRecord>, lists: seq<seq<nat>>, ghost tasks: seq<Task>)
    requires t.Valid() && t.released == {} && |t.outgoing| == |tasks| && ListsOf(lists, |records|, tasks)
    modifies t
    ensures t.Valid() && t.released == {} && |t.outgoing| == |tasks|
    ensures t.edges == old(t.edges) + DepEdges(records, lists, |records|)
  {
    var repoByPath := IndexByPath(records);
    for r := 0 to |records|
      invariant t.Valid() && t.released == {} && |t.outgoing| == |tasks|
      invariant t.edges == old(t.edges) + DepEdges(records, lists, r)
    {
      DepEdgesGrow(records, lists, r);
      if lists[r] != [] {
        AddDependencies(t, records, repoByPath, lists, r, tasks);
      }
    }
  }

  method AddAllNesting(t: EdgeTable, records: seq<RepoRecord>, lists: seq<seq<nat>>, ghost tasks: seq<Task>)
    requires t.Valid() && t.released == {} && |t.outgoing| == |tasks| && ListsOf(lists, |records|, tasks)
    modifies t
    ensures t.Valid() && t.released == {} && |t.outgoing| == |tasks|
    ensures t.edges == old(t.edges) + NestEdges(records, lists, |records|)
  {
    for outer := 0 to |records|
      invariant t.Valid() && t.released == {} && |t.outgoing| == |tasks|
      invariant t.edges == old(t.edges) + NestEdges(records, lists, outer)
    {
      NestEdgesGrow(records, lists, outer);
      if lists[outer] != [] {
        AddNesting(t, records, lists, outer, tasks);
      }
    }
  }

  // ---------------------------------------------------------------- the scheduler

  function TaskKeys(records: seq<RepoRecord>, tasks: seq<Task>): (keys: seq<SortKey>)
    requires TasksInRange(tasks, |records|)
  {
    seq(|tasks|, v requires 0 <= v < |tasks| =>
      SortKey(records[tasks[v].repo].depth, records[tasks[v].repo].key, tasks[v].commitIndex))
  }

  /** The fallback: one task per wave, all tasks, in comparator order. */
  ghost predicate SingleFile(waves: seq<seq<nat>>, keys: seq<SortKey>, order: seq<nat>) {
    && |order| == |waves| && (forall k :: 0 <= k < |waves| ==> waves[k] == [order[k]])
    && NoDuplicates(order) && (forall v: nat :: v in order <==> v < |keys|)
    && InRange(order, |keys|) && SortedBy(order, keys)
  }

  ghost predicate Fallback(waves: seq<seq<nat>>, keys: seq<SortKey>) {
    exists order :: SingleFile(waves, keys, order)
  }

  /** Wave numbers are longest-chain lengths, and no schedule has fewer waves. */
  ghost predicate OptimalLayering(n: nat, e: Edges, waves: seq<seq<nat>>) {
    && Respects(e, waves)
    && (forall v: nat, k: nat :: v < n && LongestChain(e, v, k + 1) ==> InWave(waves, k, v))
    && (forall v: nat, k: nat :: InWave(waves, k, v) ==> LongestChain(e, v, k + 1))
    && (forall other :: Covers(n, other) && Respects(e, other) ==> |waves| <= |other|)
  }

  method BuildCommitTaskGraph(records: seq<RepoRecord>, runbooks: seq<Runbook>) returns (g: CommitTaskGraph)
    requires RunbooksInRange(runbooks, |records|)
    ensures exists from :: TasksFrom(runbooks, g.tasks, from)
    ensures g.tasks == TasksOf(runbooks) && TasksInRange(g.tasks, |records|)
    ensures g.dependencyCycleDetected <==> HasCycle(TaskEdges(records, g.tasks))
    ensures Covers(|g.tasks|, g.waves)
    ensures !g.dependencyCycleDetected ==>
      && OptimalLayering(|g.tasks|, TaskEdges(records, g.tasks), g.waves)
      && WavesSorted(g.waves, TaskKeys(records, g.tasks))
    ensures g.dependencyCycleDetected ==> Fallback(g.waves, TaskKeys(records, g.tasks))
  {
    ghost var from := TasksFromRunbooks(runbooks);
    if records == [] || runbooks == [] {
      NoTasks(runbooks, |records|);
      NoTaskSchedule(records);
      return CommitTaskGraph([], [], false);
    }
    var tasks, repoTaskIndices := CollectTasks(|records|, runbooks);
    if tasks == [] {
      NoTaskSchedule(records);
      return CommitTaskGraph([], [], false);
    }
    var t := BuildTaskEdges(records, tasks, repoTaskIndices);
    var waves, cyclic := ScheduleTasks(t, TaskKeys(records, tasks));
    return CommitTaskGraph(tasks, waves, cyclic);
  }

  method BuildTaskEdges(records: seq<RepoRecord>, tasks: seq<Task>, lists: seq<seq<nat>>) returns (t: EdgeTable)
    requires ListsOf(lists, |records|, tasks)
    ensures fresh(t) && t.Valid() && t.released == {} && |t.outgoing| == |tasks|
    ensures t.edges == TaskEdges(records, tasks)
  {
    t := new EdgeTable(|tasks|);
    AddAllChains(t, lists, |records|, tasks);
    AddAllDependencies(t, records, lists, tasks);
    AddAllNesting(t, records, lists, tasks);
  }

  /** Layers the graph, or falls back to one task per wave when the layering leaves tasks over. */
  method ScheduleTasks(t: EdgeTable, keys: seq<SortKey>) returns (waves: seq<seq<nat>>, cyclic: bool)
    requires t.Valid() && t.released == {} && |t.outgoing| == |keys|
    modifies t
    ensures cyclic <==> HasCycle(old(t.edges))
    ensures Covers(|keys|, waves)
    ensures !cyclic ==> OptimalLayering(|keys|, old(t.edges), waves) && WavesSorted(waves, keys)
    ensures cyclic ==> Fallback(waves, keys)
  {
    ghost var n, e := |keys|, t.edges;
    var layers, processed := BuildLayers(t, keys);
    DoneInRange(n, e, |layers|);
    FullCount(n, Done(n, e, |layers|));
    LeftOverIffCycle(n, e, |layers|);
    if processed != |keys| {
      var order;
      order, waves := FallbackWaves(keys);
      return waves, true;
    }
    LayersCover(n, e, layers);
    LayersAreOptimal(n, e, layers);
    return layers, false;
  }

  lemma DoneInRange(n: nat, e: Edges, k: nat)
    ensures forall v :: v in Done(n, e, k) ==> v < n
  {
  }

  function Iota(n: nat): (s: seq<nat>)
    ensures |s| == n && InRange(s, n) && NoDuplicates(s) && forall v: nat :: v in s <==> v < n
  {
    if n == 0 then [] else Iota(n - 1) + [n - 1]
  }

  method FallbackWaves(keys: seq<SortKey>) returns (order: seq<nat>, waves: seq<seq<nat>>)
    ensures SingleFile(waves, keys, order) && Covers(|keys|, waves)
  {
    var all := Iota(|keys|);
    order := SortByKey(all, keys);
    MultisetFacts(all, order);
    waves := [];
    for k := 0 to |order|
      invariant |waves| == k && forall i :: 0 <= i < k ==> waves[i] == [order[i]]
    {
      waves := waves + [[order[k]]];
    }
    assert forall v: nat :: v in order <==> v in Elems(all);
    SingleFileCovers(waves, keys, order);
  }

  lemma SingleFileWave(waves: seq<seq<nat>>, keys: seq<SortKey>, order: seq<nat>, k: nat, v: nat)
    requires SingleFile(waves, keys, order)
    ensures InWave(waves, k, v) <==> k < |order| && order[k] == v
  {
  }

  lemma SingleFileCovers(waves: seq<seq<nat>>, keys: seq<SortKey>, order: seq<nat>)
    requires SingleFile(waves, keys, order)
    ensures Covers(|keys|, waves)
  {
    forall v: nat ensures v < |keys| <==> Scheduled(waves, v) {
      if v < |keys| {
        assert v in order;
        var k: nat :| k < |order| && order[k] == v;
        SingleFileWave(waves, keys, order, k, v);
      }
      if Scheduled(waves, v) {
        var k :| InWave(waves, k, v);
        SingleFileWave(waves, keys, order, k, v);
      }
    }
    forall v, j: nat, k: nat | InWave(waves, j, v) && InWave(waves, k, v) ensures j == k {
      SingleFileWave(waves, keys, order, j, v);
      SingleFileWave(waves, keys, order, k, v);
    }
  }

  lemma LayersAreOptimal(n: nat, e: Edges, waves: seq<seq<nat>>)
    requires Graph(n, e) && Layers(n, e, waves) && AllNodes(n, Done(n, e, |waves|))
    ensures OptimalLayering(n, e, waves)
  {
    LayersCover(n, e, waves);
    forall v: nat, k: nat | v < n && LongestChain(e, v, k + 1) ensures InWave(waves, k, v) {
      WaveIsLongestChain(n, e, k, v);
      if k < |waves| {
        InWaveIsDone(n, e, waves, k, v);
      } else {
        DoneGrows(n, e, |waves|, k);
      }
    }
    forall v: nat, k: nat | InWave(waves, k, v) ensures LongestChain(e, v, k + 1) {
      InWaveIsDone(n, e, waves, k, v);
      WaveIsLongestChain(n, e, k, v);
    }
    forall other | Covers(n, other) && Respects(e, other) ensures |waves| <= |other| {
      FewestWaves(n, e, waves, other);
    }
  }

  lemma {:induction false} NoTasks(runbooks: seq<Runbook>, n: nat)
    requires RunbooksInRange(runbooks, n) && (n == 0 || runbooks == [])
    ensures TasksOf(runbooks) == []
  {
    if runbooks != [] {
      var front := runbooks[..|runbooks| - 1];
      assert forall i :: 0 <= i < |front| ==> front[i] == runbooks[i];
      NoTasks(front, n);
      assert RunbookTasks(runbooks[|runbooks| - 1]) == [];
    }
  }

  lemma NoTaskSchedule(records: seq<RepoRecord>)
    ensures !HasCycle(TaskEdges(records, []))
    ensures Covers(0, []) && OptimalLayering(0, TaskEdges(records, []), [])
  {
    var lists := TaskLists(|records|, []);
    assert forall r :: 0 <= r < |lists| ==> lists[r] == [];
    var e := TaskEdges(records, []);
    assert e == {};
    LeftOverIffCycle(0, e, 0);
    LayersAreOptimal(0, e, []);
    LayersCover(0, e, []);
  }
}
