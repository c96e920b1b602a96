/** What every schedule guarantees about commit order, and when the fallback is reached. */
module TaskOrder {
  import opened Text
  import opened Sorting
  import opened Layering
  import opened TaskGraph

  /** Commits of one repository keep their order. */
  ghost predicate RepoOrderKept(tasks: seq<Task>, waves: seq<seq<nat>>) {
    forall u: nat, v: nat, j: nat, k: nat ::
      u < v < |tasks| && tasks[u].repo == tasks[v].repo && InWave(waves, j, u) && InWave(waves, k, v) ==> j < k
  }

  /** Task `u` belongs to a repository nested inside the one of task `v`. */
  ghost predicate Nested(records: seq<RepoRecord>, tasks: seq<Task>, u: nat, v: nat)
    requires TasksInRange(tasks, |records|)
  {
    u < |tasks| && v < |tasks| && IsBelow(records[tasks[v].repo].key, records[tasks[u].repo].key)
  }

  /** Every commit of a nested repository comes before every commit of its ancestors. */
  ghost predicate ChildrenFirst(records: seq<RepoRecord>, tasks: seq<Task>, waves: seq<seq<nat>>)
    requires TasksInRange(tasks, |records|)
  {
    forall u: nat, v: nat, j: nat, k: nat ::
      Nested(records, tasks, u, v) && InWave(waves, j, u) && InWave(waves, k, v) ==> j < k
  }

  // ---------------------------------------------------------------- acyclic schedules

  lemma ChainEdgeIn(records: seq<RepoRecord>, tasks: seq<Task>, r: nat, i: nat)
    requires r < |records| && 1 <= i < |TaskIndices(tasks, r)|
    ensures (TaskIndices(tasks, r)[i - 1], TaskIndices(tasks, r)[i]) in TaskEdges(records, tasks)
  {
    var lists := TaskLists(|records|, tasks);
    assert Link(lists[r], i) in ChainOf(lists[r], |lists[r]|);
    assert Link(lists[r], i) in ChainEdges(lists, |lists|);
  }

  lemma NestEdgeIn(records: seq<RepoRecord>, tasks: seq<Task>, outer: nat, inner: nat)
    requires outer < |records| && inner < |records| && IsBelow(records[outer].key, records[inner].key)
    requires TaskIndices(tasks, outer) != [] && TaskIndices(tasks, inner) != []
    ensures (Last(TaskIndices(tasks, inner)), TaskIndices(tasks, outer)[0]) in TaskEdges(records, tasks)
  {
    var lists := TaskLists(|records|, tasks);
    var p := (Last(lists[inner]), lists[outer][0]);
    assert p in NestEdge(records, lists, outer, inner);
    assert p in NestEdgesOf(records, lists, outer, |records|);
    assert p in NestEdges(records, lists, |records|);
  }

  /** Later entries of one repository's list are in later waves. */
  lemma {:induction false} ListClimbs(records: seq<RepoRecord>, tasks: seq<Task>, waves: seq<seq<nat>>,
                                      r: nat, a: nat, b: nat, j: nat, k: nat)
    requires r < |records| && a <= b < |TaskIndices(tasks, r)|
    requires Covers(|tasks|, waves) && Respects(TaskEdges(records, tasks), waves)
    requires InWave(waves, j, TaskIndices(tasks, r)[a]) && InWave(waves, k, TaskIndices(tasks, r)[b])
    ensures j + (b - a) <= k
    decreases b - a
  {
    var list := TaskIndices(tasks, r);
    if a < b {
      TaskIndicesAre(tasks, r);
      assert list[b - 1] in list;
      assert Scheduled(waves, list[b - 1]);
      var m: nat :| InWave(waves, m, list[b - 1]);
      ListClimbs(records, tasks, waves, r, a, b - 1, j, m);
      ChainEdgeIn(records, tasks, r, b);
    }
  }

  lemma TaskPosition(tasks: seq<Task>, v: nat) returns (i: nat)
    requires v < |tasks|
    ensures i < |TaskIndices(tasks, tasks[v].repo)| && TaskIndices(tasks, tasks[v].repo)[i] == v
  {
    TaskIndicesAre(tasks, tasks[v].repo);
    assert v in TaskIndices(tasks, tasks[v].repo);
    i :| 0 <= i < |TaskIndices(tasks, tasks[v].repo)| && TaskIndices(tasks, tasks[v].repo)[i] == v;
  }

  /** A schedule that respects the edges keeps repository order and puts children first. */
  lemma EdgesOrderCommits(records: seq<RepoRecord>, tasks: seq<Task>, waves: seq<seq<nat>>)
    requires TasksInRange(tasks, |records|)
    requires Covers(|tasks|, waves) && Respects(TaskEdges(records, tasks), waves)
    ensures RepoOrderKept(tasks, waves) && ChildrenFirst(records, tasks, waves)
  {
    forall u: nat, v: nat, j: nat, k: nat |
      u < v < |tasks| && tasks[u].repo == tasks[v].repo && InWave(waves, j, u) && InWave(waves, k, v)
      ensures j < k
    {
      SameRepoClimbs(records, tasks, waves, u, v, j, k);
    }
    forall u: nat, v: nat, j: nat, k: nat |
      Nested(records, tasks, u, v) && InWave(waves, j, u) && InWave(waves, k, v)
      ensures j < k
    {
      NestedClimbs(records, tasks, waves, u, v, j, k);
    }
  }

  lemma SameRepoClimbs(records: seq<RepoRecord>, tasks: seq<Task>, waves: seq<seq<nat>>, u: nat, v: nat, j: nat, k: nat)
    requires TasksInRange(tasks, |records|)
    requires Covers(|tasks|, waves) && Respects(TaskEdges(records, tasks), waves)
    requires u < v < |tasks| && tasks[u].repo == tasks[v].repo && InWave(waves, j, u) && InWave(waves, k, v)
    ensures j < k
  {
    var r := tasks[u].repo;
    var a := TaskPosition(tasks, u);
    var b := TaskPosition(tasks, v);
    TaskIndicesAre(tasks, r);
    assert a < b;
    ListClimbs(records, tasks, waves, r, a, b, j, k);
  }

  lemma NestedClimbs(records: seq<RepoRecord>, tasks: seq<Task>, waves: seq<seq<nat>>, u: nat, v: nat, j: nat, k: nat)
    requires TasksInRange(tasks, |records|)
    requires Covers(|tasks|, waves) && Respects(TaskEdges(records, tasks), waves)
    requires Nested(records, tasks, u, v) && InWave(waves, j, u) && InWave(waves, k, v)
    ensures j < k
  {
    var _ := TaskPosition(tasks, u);
    var _ := TaskPosition(tasks, v);
    NestEdgeIn(records, tasks, tasks[v].repo, tasks[u].repo);
    EdgeBetweenRepos(records, tasks, waves, u, v, j, k);
  }

  /** A dependency entry of record `r` names record `target`. */
  ghost predicate DependsOn(records: seq<RepoRecord>, r: nat, target: nat) {
    target != r && exists d: nat :: ResolvesTo(records, r, d, target)
  }

  /** Task `u` belongs to a repository with a dependency entry for the one of task `v`. */
  ghost predicate Dependent(records: seq<RepoRecord>, tasks: seq<Task>, u: nat, v: nat) {
    u < |tasks| && v < |tasks| && DependsOn(records, tasks[u].repo, tasks[v].repo)
  }

  /** Every commit of a record comes before every commit of the records its entries resolve to. */
  ghost predicate DependentsFirst(records: seq<RepoRecord>, tasks: seq<Task>, waves: seq<seq<nat>>) {
    forall u: nat, v: nat, j: nat, k: nat ::
      Dependent(records, tasks, u, v) && InWave(waves, j, u) && InWave(waves, k, v) ==> j < k
  }

  lemma DepEdgeIn(records: seq<RepoRecord>, tasks: seq<Task>, r: nat, target: nat)
    requires r < |records| && target < |records| && DependsOn(records, r, target)
    requires TaskIndices(tasks, r) != [] && TaskIndices(tasks, target) != []
    ensures (Last(TaskIndices(tasks, r)), TaskIndices(tasks, target)[0]) in TaskEdges(records, tasks)
  {
    var lists := TaskLists(|records|, tasks);
    var d: nat :| ResolvesTo(records, r, d, target);
    var p := (Last(lists[r]), lists[target][0]);
    assert p in DepEdge(records, lists, r, d);
    assert p in DepEdgesOf(records, lists, r, |records[r].dependencies|);
    assert p in DepEdges(records, lists, |records|);
  }

  /** The waves of the first and the last commit of a task's repository, around its own. */
  lemma AroundTask(records: seq<RepoRecord>, tasks: seq<Task>, waves: seq<seq<nat>>, v: nat, k: nat)
      returns (head: nat, tail: nat)
    requires TasksInRange(tasks, |records|)
    requires Covers(|tasks|, waves) && Respects(TaskEdges(records, tasks), waves)
    requires v < |tasks| && InWave(waves, k, v)
    ensures TaskIndices(tasks, tasks[v].repo) != [] && head <= k <= tail
    ensures InWave(waves, head, TaskIndices(tasks, tasks[v].repo)[0])
    ensures InWave(waves, tail, Last(TaskIndices(tasks, tasks[v].repo)))
  {
    var vs := TaskIndices(tasks, tasks[v].repo);
    var b := TaskPosition(tasks, v);
    TaskIndicesAre(tasks, tasks[v].repo);
    assert vs[0] in vs && Last(vs) in vs;
    assert Scheduled(waves, vs[0]) && Scheduled(waves, Last(vs));
    head :| InWave(waves, head, vs[0]);
    tail :| InWave(waves, tail, Last(vs));
    ListClimbs(records, tasks, waves, tasks[v].repo, 0, b, head, k);
    ListClimbs(records, tasks, waves, tasks[v].repo, b, |vs| - 1, k, tail);
  }

  /** When the last commit of one repository precedes the first of another, all commits do. */
  lemma EdgeBetweenRepos(records: seq<RepoRecord>, tasks: seq<Task>, waves: seq<seq<nat>>,
                         u: nat, v: nat, j: nat, k: nat)
    requires TasksInRange(tasks, |records|)
    requires Covers(|tasks|, waves) && Respects(TaskEdges(records, tasks), waves)
    requires u < |tasks| && v < |tasks| && InWave(waves, j, u) && InWave(waves, k, v)
    requires TaskIndices(tasks, tasks[u].repo) != [] && TaskIndices(tasks, tasks[v].repo) != []
    requires (Last(TaskIndices(tasks, tasks[u].repo)), TaskIndices(tasks, tasks[v].repo)[0]) in TaskEdges(records, tasks)
    ensures j < k
  {
    var _, tail := AroundTask(records, tasks, waves, u, j);
    var head, _ := AroundTask(records, tasks, waves, v, k);
  }

  /** A schedule that respects the edges commits what depends on a repository before that repository. */
  lemma EdgesOrderDependents(records: seq<RepoRecord>, tasks: seq<Task>, waves: seq<seq<nat>>)
    requires TasksInRange(tasks, |records|)
    requires Covers(|tasks|, waves) && Respects(TaskEdges(records, tasks), waves)
    ensures DependentsFirst(records, tasks, waves)
  {
    forall u: nat, v: nat, j: nat, k: nat |
      Dependent(records, tasks, u, v) && InWave(waves, j, u) && InWave(waves, k, v)
      ensures j < k
    {
      var _ := TaskPosition(tasks, u);
      var _ := TaskPosition(tasks, v);
      DepEdgeIn(records, tasks, tasks[u].repo, tasks[v].repo);
      EdgeBetweenRepos(records, tasks, waves, u, v, j, k);
    }
  }

  // ---------------------------------------------------------------- the fallback

  /** The spelled depth grows along nesting: what a caller can check before scheduling. */
  ghost predicate DepthGrowsWithNesting(records: seq<RepoRecord>, tasks: seq<Task>)
    requires TasksInRange(tasks, |records|)
  {
    forall u: nat, v: nat :: Nested(records, tasks, u, v) ==>
      records[tasks[u].repo].depth > records[tasks[v].repo].depth
  }

  lemma NestedKeyOrder(records: seq<RepoRecord>, tasks: seq<Task>, u: nat, v: nat)
    requires TasksInRange(tasks, |records|) && Nested(records, tasks, u, v)
    ensures var keys := TaskKeys(records, tasks);
      if keys[u].depth > keys[v].depth then KeyLess(keys[u], keys[v]) else KeyLess(keys[v], keys[u])
  {
    var keys := TaskKeys(records, tasks);
    BelowIsLonger(keys[v].text, keys[u].text);
    LexPrefix(keys[v].text, keys[u].text);
  }

  /** In the fallback, children come first exactly when the spelled depth grows with nesting. */
  lemma FallbackChildrenFirst(records: seq<RepoRecord>, tasks: seq<Task>, waves: seq<seq<nat>>)
    requires TasksInRange(tasks, |records|) && Fallback(waves, TaskKeys(records, tasks))
    ensures ChildrenFirst(records, tasks, waves) <==> DepthGrowsWithNesting(records, tasks)
  {
    var keys := TaskKeys(records, tasks);
    var order :| SingleFile(waves, keys, order);
    forall u: nat, v: nat, j: nat, k: nat |
      Nested(records, tasks, u, v) && InWave(waves, j, u) && InWave(waves, k, v)
      ensures j < k <==> keys[u].depth > keys[v].depth
    {
      SingleFileWave(waves, keys, order, j, u);
      SingleFileWave(waves, keys, order, k, v);
      NestedKeyOrder(records, tasks, u, v);
      if keys[u].depth > keys[v].depth {
        KeyLessAsymmetric(keys[u], keys[v]);
      } else {
        KeyLessAsymmetric(keys[v], keys[u]);
      }
    }
    if ChildrenFirst(records, tasks, waves) {
      forall u: nat, v: nat | Nested(records, tasks, u, v) ensures keys[u].depth > keys[v].depth {
        SingleFileCovers(waves, keys, order);
        assert Scheduled(waves, u) && Scheduled(waves, v);
        var j: nat :| InWave(waves, j, u);
        var k: nat :| InWave(waves, k, v);
        assert j < k;
      }
    }
  }

  ghost predicate CommitsNumbered(tasks: seq<Task>) {
    forall u: nat, v: nat ::
      u < v < |tasks| && tasks[u].repo == tasks[v].repo ==> tasks[u].commitIndex < tasks[v].commitIndex
  }

  /** In the fallback, repository order follows commit indices, so it is kept for one runbook each. */
  lemma FallbackRepoOrder(records: seq<RepoRecord>, tasks: seq<Task>, waves: seq<seq<nat>>)
    requires TasksInRange(tasks, |records|) && Fallback(waves, TaskKeys(records, tasks))
    requires CommitsNumbered(tasks)
    ensures RepoOrderKept(tasks, waves)
  {
    var keys := TaskKeys(records, tasks);
    var order :| SingleFile(waves, keys, order);
    forall u: nat, v: nat, j: nat, k: nat |
      u < v < |tasks| && tasks[u].repo == tasks[v].repo && InWave(waves, j, u) && InWave(waves, k, v)
      ensures j < k
    {
      SingleFileWave(waves, keys, order, j, u);
      SingleFileWave(waves, keys, order, k, v);
      assert KeyLess(keys[u], keys[v]);
    }
  }

  ghost predicate FromRunbook(runbooks: seq<Runbook>, repo: nat) {
    exists b :: 0 <= b < |runbooks| && runbooks[b].repoRecordIndex == repo
  }

  lemma {:induction false} OneRunbookNumbersCommits(runbooks: seq<Runbook>)
    requires OneRunbookPerRepo(runbooks)
    ensures CommitsNumbered(TasksOf(runbooks))
    ensures forall u: nat :: u < |TasksOf(runbooks)| ==> FromRunbook(runbooks, TasksOf(runbooks)[u].repo)
  {
    if runbooks != [] {
      var n := |runbooks| - 1;
      var front := runbooks[..n];
      OneRunbookNumbersCommits(front);
      var before, last := TasksOf(front), RunbookTasks(runbooks[n]);
      var all := before + last;
      forall u: nat | u < |all|
        ensures FromRunbook(runbooks, all[u].repo)
        ensures u < |before| ==> before[u].repo != runbooks[n].repoRecordIndex
      {
        if u < |before| {
          var b :| 0 <= b < |front| && front[b].repoRecordIndex == before[u].repo;
          assert runbooks[b] == front[b];
        } else {
          assert runbooks[n].repoRecordIndex == last[u - |before|].repo;
        }
      }
    }
  }

  // ---------------------------------------------------------------- spelled depth

  /** The parts std::filesystem::path iterates over: a leading "/" and the named segments. */
  function Segments(s: string): nat {
    if s == [] then 0
    else
      var n := |s| - 1;
      Segments(s[..n]) + if s[n] != '/' && (n == 0 || s[n - 1] == '/') then 1 else 0
  }

  function PathDepth(s: string): nat {
    Segments(s) + if s != [] && s[0] == '/' then 1 else 0
  }

  lemma {:induction false} PrefixSegments(c: string, p: nat, m: nat)
    requires p < m <= |c| && c[p] == '/'
    ensures Segments(c[..m]) >= Segments(c[..p])
    ensures c[m - 1] != '/' ==> Segments(c[..m]) > Segments(c[..p])
    decreases m
  {
    assert c[..m][..m - 1] == c[..m - 1];
    if m > p + 1 {
      PrefixSegments(c, p, m - 1);
    }
  }

  /** A canonical path (no trailing separator) is deeper than every path it lies below. */
  lemma CanonicalDepthGrows(parent: string, child: string)
    requires IsBelow(parent, child) && child[|child| - 1] != '/'
    ensures PathDepth(child) > PathDepth(parent)
  {
    BelowIsLonger(parent, child);
    assert child[|parent|] == (parent + "/")[|parent|];
    assert child[..|parent|] == parent && child[..|child|] == child;
    PrefixSegments(child, |parent|, |child|);
  }

  /** Records spelled canonically, as a caller hands them over after normalising. */
  ghost predicate CanonicallySpelled(records: seq<RepoRecord>) {
    forall r :: 0 <= r < |records| ==>
      && records[r].depth == PathDepth(records[r].key)
      && (records[r].key != [] ==> records[r].key[|records[r].key| - 1] != '/')
  }

  lemma CanonicalSpellingSuffices(records: seq<RepoRecord>, tasks: seq<Task>)
    requires TasksInRange(tasks, |records|) && CanonicallySpelled(records)
    ensures DepthGrowsWithNesting(records, tasks)
  {
    forall u: nat, v: nat | Nested(records, tasks, u, v)
      ensures records[tasks[u].repo].depth > records[tasks[v].repo].depth
    {
      CanonicalDepthGrows(records[tasks[v].repo].key, records[tasks[u].repo].key);
    }
  }

  // ---------------------------------------------------------------- both cases together

  /**
   Whatever the dependencies say, a schedule of canonically spelled records with
   one runbook each keeps commit order and commits children before ancestors.
   */
  lemma ScheduleOrdersCommits(records: seq<RepoRecord>, runbooks: seq<Runbook>, waves: seq<seq<nat>>)
    requires TasksInRange(TasksOf(runbooks), |records|) && Covers(|TasksOf(runbooks)|, waves)
    requires || Respects(TaskEdges(records, TasksOf(runbooks)), waves)
             || Fallback(waves, TaskKeys(records, TasksOf(runbooks)))
    requires CanonicallySpelled(records) && OneRunbookPerRepo(runbooks)
    ensures RepoOrderKept(TasksOf(runbooks), waves) && ChildrenFirst(records, TasksOf(runbooks), waves)
  {
    var tasks := TasksOf(runbooks);
    if Respects(TaskEdges(records, tasks), waves) {
      EdgesOrderCommits(records, tasks, waves);
    } else {
      CanonicalSpellingSuffices(records, tasks);
      FallbackChildrenFirst(records, tasks, waves);
      OneRunbookNumbersCommits(runbooks);
      FallbackRepoOrder(records, tasks, waves);
    }
  }

  /** Dot parts dropped, and each ".." together with the part before it. */
  function Resolved(parts: seq<string>, done: seq<string>): seq<string> {
    if parts == [] then done
    else if parts[0] == "." then Resolved(parts[1..], done)
    else if parts[0] == ".." then Resolved(parts[1..], if done == [] then [] else done[..|done| - 1])
    else Resolved(parts[1..], done + [parts[0]])
  }

  /** The text of an absolute path with these parts. */
  function Rendered(parts: seq<string>): string {
    if parts == [] then [] else Rendered(parts[..|parts| - 1]) + "/" + parts[|parts| - 1]
  }

  /** The record of an absolute path as it was spelled, without links: its key is resolved, its depth is not. */
  function Spelled(parts: seq<string>, dependencies: seq<string>): RepoRecord {
    RepoRecord(Rendered(Resolved(parts, [])), PathDepth(Rendered(parts)), dependencies)
  }

  predicate IsPart(part: string) {
    part != [] && forall i :: 0 <= i < |part| ==> part[i] != '/'
  }

  lemma {:induction false} OneMoreSegment(path: string, part: string, m: nat)
    requires IsPart(part) && 1 <= m <= |part|
    ensures Segments(path + "/" + part[..m]) == Segments(path) + 1
    decreases m
  {
    var s := path + "/" + part[..m];
    assert s[..|s| - 1] == path + "/" + part[..m - 1];
    if m > 1 {
      OneMoreSegment(path, part, m - 1);
    } else {
      assert path + "/" + part[..0] == path + "/" && (path + "/")[..|path|] == path;
    }
  }

  /** The depth of a spelling is the number of its parts and the root, "." and ".." included. */
  lemma {:induction false} SpelledDepth(parts: seq<string>)
    requires parts != [] && forall i :: 0 <= i < |parts| ==> IsPart(parts[i])
    ensures PathDepth(Rendered(parts)) == |parts| + 1 && Segments(Rendered(parts)) == |parts|
  {
    var front, last := parts[..|parts| - 1], parts[|parts| - 1];
    OneMoreSegment(Rendered(front), last, |last|);
    assert last[..|last|] == last;
    if front != [] {
      SpelledDepth(front);
    }
  }

  const ONE_COMMIT := [CommitItem("m", [], [])]
  const SPELLED_RECORDS := [RepoRecord("/w", 4, ["/w/c"]), RepoRecord("/w/c", 3, [])]
  const SPELLED_BOOKS := [Runbook(0, ONE_COMMIT, true), Runbook(1, ONE_COMMIT, true)]
  const SPELLED_TASKS := [Task(0, 0, 1, ONE_COMMIT[0]), Task(1, 0, 1, ONE_COMMIT[0])]

  lemma SpelledTasks()
    ensures TasksOf(SPELLED_BOOKS) == SPELLED_TASKS
    ensures TaskIndices(SPELLED_TASKS, 0) == [0] && TaskIndices(SPELLED_TASKS, 1) == [1]
  {
    var books, tasks := SPELLED_BOOKS, SPELLED_TASKS;
    assert books[..1] == [books[0]] && books[..1][..0] == [];
    assert RunbookTasks(books[0]) == [tasks[0]] && RunbookTasks(books[1]) == [tasks[1]];
    assert TasksOf(books[..1]) == [tasks[0]];
    assert tasks[..1] == [tasks[0]] && tasks[..1][..0] == [];
    assert TaskIndices(tasks[..1], 0) == [0] && TaskIndices(tasks[..1], 1) == [];
  }

  predicate IsName(part: string) {
    IsPart(part) && part != "." && part != ".."
  }

  lemma {:induction false} ResolveName(parts: seq<string>, done: seq<string>)
    requires parts != [] && IsName(parts[0])
    ensures Resolved(parts, done) == Resolved(parts[1..], done + [parts[0]])
  {
  }

  lemma {:induction false} RenderedOne(w: string)
    ensures Rendered([w]) == "/" + w
  {
    assert [w][..0] == [];
  }

  /** A directory entered and left again only adds to the depth. */
  lemma {:induction false} DetourSpelled(x: string, w: string, dependencies: seq<string>)
    requires IsName(x) && IsName(w)
    ensures Spelled([x, "..", w], dependencies) == RepoRecord("/" + w, 4, dependencies)
  {
    SpelledDepth([x, "..", w]);
    ResolveName([x, "..", w], []);
    assert [x, "..", w][1..] == ["..", w] && ["..", w][1..] == [w] && [] + [x] == [x] && [x][..0] == [];
    ResolveName([w], []);
    assert [w][1..] == [] && [] + [w] == [w];
    RenderedOne(w);
  }

  lemma {:induction false} PlainSpelled(w: string, c: string, dependencies: seq<string>)
    requires IsName(w) && IsName(c)
    ensures Spelled([w, c], dependencies) == RepoRecord("/" + w + "/" + c, 3, dependencies)
  {
    SpelledDepth([w, c]);
    ResolveName([w, c], []);
    assert [w, c][1..] == [c] && [] + [w] == [w];
    ResolveName([c], [w]);
    assert [c][1..] == [] && [w] + [c] == [w, c] && [w, c][..1] == [w];
    RenderedOne(w);
  }

  lemma SpelledRecords()
    ensures SPELLED_RECORDS == [Spelled(["x", "..", "w"], ["/w/c"]), Spelled(["w", "c"], [])]
  {
    DetourSpelled("x", "w", ["/w/c"]);
    PlainSpelled("w", "c", []);
    assert "/" + "w" == "/w" && "/" + "w" + "/" + "c" == "/w/c";
  }

  lemma SpelledNested()
    ensures TasksInRange(SPELLED_TASKS, |SPELLED_RECORDS|) && !DepthGrowsWithNesting(SPELLED_RECORDS, SPELLED_TASKS)
  {
    assert Nested(SPELLED_RECORDS, SPELLED_TASKS, 1, 0);
  }

  /** A parent spelled through ".." can sort before its child in the fallback. */
  lemma SpelledDepthCounterexample()
    ensures SPELLED_RECORDS == [Spelled(["x", "..", "w"], ["/w/c"]), Spelled(["w", "c"], [])]
    ensures TasksOf(SPELLED_BOOKS) == SPELLED_TASKS && TasksInRange(SPELLED_TASKS, |SPELLED_RECORDS|)
    ensures HasCycle(TaskEdges(SPELLED_RECORDS, SPELLED_TASKS))
    ensures !DepthGrowsWithNesting(SPELLED_RECORDS, SPELLED_TASKS)
  {
    SpelledRecords();
    SpelledTasks();
    SpelledCycle();
    SpelledNested();
  }

  lemma SpelledCycle()
    ensures Cycle(TaskEdges(SPELLED_RECORDS, SPELLED_TASKS), [0, 1, 0])
  {
    var records, tasks := SPELLED_RECORDS, SPELLED_TASKS;
    SpelledTasks();
    NestEdgeIn(records, tasks, 0, 1);
    var lists := TaskLists(2, tasks);
    assert ResolvesTo(records, 0, 0, 1);
    assert (0, 1) in DepEdge(records, lists, 0, 0);
    assert (0, 1) in DepEdgesOf(records, lists, 0, 1);
    assert (0, 1) in DepEdges(records, lists, 2);
  }

  // ---------------------------------------------------------------- no fallback from nesting

  /** Every dependency entry that resolves names a record with a shorter key, as a superproject does. */
  ghost predicate DependenciesShorten(records: seq<RepoRecord>) {
    forall r: nat, d: nat, target: nat :: ResolvesTo(records, r, d, target) && target != r ==>
      |records[target].key| < |records[r].key|
  }

  function EdgeRank(records: seq<RepoRecord>, tasks: seq<Task>, v: nat): int
    requires TasksInRange(tasks, |records|)
  {
    if v < |tasks| then v - |records[tasks[v].repo].key| * (|tasks| + 1) else 0
  }

  lemma ShorterKeyRanksHigher(a: nat, b: nat, n: nat, u: nat, v: nat)
    requires b < a && u < n && v < n
    ensures u - a * (n + 1) < v - b * (n + 1)
  {
    assert a * (n + 1) >= (b + 1) * (n + 1) == b * (n + 1) + (n + 1);
  }

  lemma ChainEdgeClimbs(records: seq<RepoRecord>, tasks: seq<Task>, lists: seq<seq<nat>>, p: (nat, nat))
    requires ListsOf(lists, |records|, tasks) && p in ChainEdges(lists, |lists|)
    ensures EdgeRank(records, tasks, p.0) < EdgeRank(records, tasks, p.1)
  {
    var r :| 0 <= r < |lists| && p in ChainOf(lists[r], |lists[r]|);
    ListFacts(lists, |records|, tasks, r);
    var i :| 1 <= i < |lists[r]| && p == Link(lists[r], i);
    assert lists[r][i - 1] < lists[r][i];
  }

  lemma DepEdgeClimbs(records: seq<RepoRecord>, tasks: seq<Task>, lists: seq<seq<nat>>, p: (nat, nat))
    requires ListsOf(lists, |records|, tasks) && DependenciesShorten(records)
    requires p in DepEdges(records, lists, |records|)
    ensures EdgeRank(records, tasks, p.0) < EdgeRank(records, tasks, p.1)
  {
    var r :| 0 <= r < |records| && p in DepEdgesOf(records, lists, r, |records[r].dependencies|);
    var d :| 0 <= d < |records[r].dependencies| && p in DepEdge(records, lists, r, d);
    var target :| 0 <= target < |records| && ResolvesTo(records, r, d, target) && target != r
      && lists[r] != [] && lists[target] != [] && p == (Last(lists[r]), lists[target][0]);
    ListFacts(lists, |records|, tasks, r);
    ListFacts(lists, |records|, tasks, target);
    ShorterKeyRanksHigher(|records[r].key|, |records[target].key|, |tasks|, p.0, p.1);
  }

  lemma NestEdgeClimbs(records: seq<RepoRecord>, tasks: seq<Task>, lists: seq<seq<nat>>, p: (nat, nat))
    requires ListsOf(lists, |records|, tasks) && p in NestEdges(records, lists, |records|)
    ensures EdgeRank(records, tasks, p.0) < EdgeRank(records, tasks, p.1)
  {
    var n := |records|;
    var outer :| 0 <= outer < n && p in NestEdgesOf(records, lists, outer, n);
    var inner :| 0 <= inner < n && p in NestEdge(records, lists, outer, inner);
    ListFacts(lists, n, tasks, inner);
    ListFacts(lists, n, tasks, outer);
    BelowIsLonger(records[outer].key, records[inner].key);
    ShorterKeyRanksHigher(|records[inner].key|, |records[outer].key|, |tasks|, p.0, p.1);
  }

  /**
   Nesting and commit order alone never reach the fallback; neither do dependency
   entries that point at superprojects. Without entries the condition is trivial.
   */
  lemma NestingNeverCycles(records: seq<RepoRecord>, tasks: seq<Task>)
    requires TasksInRange(tasks, |records|) && DependenciesShorten(records)
    ensures !HasCycle(TaskEdges(records, tasks))
  {
    forall p | p in TaskEdges(records, tasks)
      ensures EdgeRank(records, tasks, p.0) < EdgeRank(records, tasks, p.1)
    {
      var lists := TaskLists(|records|, tasks);
      if p in ChainEdges(lists, |lists|) {
        ChainEdgeClimbs(records, tasks, lists, p);
      } else if p in DepEdges(records, lists, |records|) {
        DepEdgeClimbs(records, tasks, lists, p);
      } else {
        NestEdgeClimbs(records, tasks, lists, p);
      }
    }
    PotentialForbidsCycle(TaskEdges(records, tasks), (v: nat) => EdgeRank(records, tasks, v));
  }
}
