/** The edges of the commit scheduler, told from the tasks and the records alone. */
module EdgeMeaning {
  import opened Text
  import opened Layering
  import opened TaskGraph
  import opened TaskOrder

  /** No commit of the same repository was created before this one. */
  predicate FirstOfRepo(tasks: seq<Task>, v: nat) {
    v < |tasks| && forall w :: 0 <= w < v ==> tasks[w].repo != tasks[v].repo
  }

  /** No commit of the same repository was created after this one. */
  predicate LastOfRepo(tasks: seq<Task>, u: nat) {
    u < |tasks| && forall w :: u < w < |tasks| ==> tasks[w].repo != tasks[u].repo
  }

  /** The next commit of the same repository. */
  predicate NextOfRepo(tasks: seq<Task>, u: nat, v: nat) {
    && u < v < |tasks| && tasks[u].repo == tasks[v].repo
    && forall w :: u < w < v ==> tasks[w].repo != tasks[u].repo
  }

  /** The repository of the first task must be committed before that of the second. */
  ghost predicate RepoPrecedes(records: seq<RepoRecord>, tasks: seq<Task>, u: nat, v: nat)
    requires TasksInRange(tasks, |records|)
  {
    Dependent(records, tasks, u, v) || Nested(records, tasks, u, v)
  }

  lemma ListEnds(tasks: seq<Task>, r: nat, u: nat)
    requires TaskIndices(tasks, r) != []
    ensures Last(TaskIndices(tasks, r)) == u <==> LastOfRepo(tasks, u) && tasks[u].repo == r
    ensures TaskIndices(tasks, r)[0] == u <==> FirstOfRepo(tasks, u) && tasks[u].repo == r
  {
    TaskIndicesAre(tasks, r);
    var s := TaskIndices(tasks, r);
    assert Last(s) in s && s[0] in s;
    if LastOfRepo(tasks, u) && tasks[u].repo == r {
      assert u in s;
    }
    if FirstOfRepo(tasks, u) && tasks[u].repo == r {
      assert u in s;
    }
  }

  lemma ListLinks(tasks: seq<Task>, r: nat, u: nat, v: nat)
    ensures (u, v) in ChainOf(TaskIndices(tasks, r), |TaskIndices(tasks, r)|) <==>
      NextOfRepo(tasks, u, v) && tasks[u].repo == r
  {
    TaskIndicesAre(tasks, r);
    var s := TaskIndices(tasks, r);
    if (u, v) in ChainOf(s, |s|) {
      var i :| 1 <= i < |s| && (u, v) == Link(s, i);
      assert s[i - 1] in s && s[i] in s;
    }
    if NextOfRepo(tasks, u, v) && tasks[u].repo == r {
      assert u in s && v in s;
      var i :| 0 <= i < |s| && s[i] == u;
      var j :| 0 <= j < |s| && s[j] == v;
      assert s[i + 1] in s;
      assert (u, v) == Link(s, i + 1);
    }
  }

  lemma ChainEdgesAre(tasks: seq<Task>, n: nat, u: nat, v: nat)
    requires TasksInRange(tasks, n)
    ensures (u, v) in ChainEdges(TaskLists(n, tasks), n) <==> NextOfRepo(tasks, u, v)
  {
    var lists := TaskLists(n, tasks);
    if (u, v) in ChainEdges(lists, n) {
      var r :| 0 <= r < n && (u, v) in ChainOf(lists[r], |lists[r]|);
      ListLinks(tasks, r, u, v);
    }
    if NextOfRepo(tasks, u, v) {
      var r := tasks[u].repo;
      ListLinks(tasks, r, u, v);
      assert (u, v) in ChainOf(lists[r], |lists[r]|);
    }
  }

  /** From the last commit of one record to the first of another. */
  predicate Joins(tasks: seq<Task>, r: nat, target: nat, u: nat, v: nat) {
    LastOfRepo(tasks, u) && tasks[u].repo == r && FirstOfRepo(tasks, v) && tasks[v].repo == target
  }

  lemma JoinsAre(tasks: seq<Task>, r: nat, target: nat, u: nat, v: nat)
    ensures Joins(tasks, r, target, u, v) <==>
      && TaskIndices(tasks, r) != [] && TaskIndices(tasks, target) != []
      && (u, v) == (Last(TaskIndices(tasks, r)), TaskIndices(tasks, target)[0])
  {
    TaskIndicesAre(tasks, r);
    TaskIndicesAre(tasks, target);
    if Joins(tasks, r, target, u, v) {
      assert u in TaskIndices(tasks, r) && v in TaskIndices(tasks, target);
    }
    if TaskIndices(tasks, r) != [] && TaskIndices(tasks, target) != [] {
      ListEnds(tasks, r, u);
      ListEnds(tasks, target, v);
    }
  }

  lemma DepEdgesAre(records: seq<RepoRecord>, tasks: seq<Task>, u: nat, v: nat)
    requires TasksInRange(tasks, |records|)
    ensures (u, v) in DepEdges(records, TaskLists(|records|, tasks), |records|) <==>
      LastOfRepo(tasks, u) && FirstOfRepo(tasks, v) && Dependent(records, tasks, u, v)
  {
    var lists := TaskLists(|records|, tasks);
    if (u, v) in DepEdges(records, lists, |records|) {
      var r :| 0 <= r < |records| && (u, v) in DepEdgesOf(records, lists, r, |records[r].dependencies|);
      var d :| 0 <= d < |records[r].dependencies| && (u, v) in DepEdge(records, lists, r, d);
      var target :| 0 <= target < |records| && ResolvesTo(records, r, d, target) && target != r
        && lists[r] != [] && lists[target] != [] && (u, v) == (Last(lists[r]), lists[target][0]);
      JoinsAre(tasks, r, target, u, v);
    }
    if LastOfRepo(tasks, u) && FirstOfRepo(tasks, v) && Dependent(records, tasks, u, v) {
      var r, target := tasks[u].repo, tasks[v].repo;
      JoinsAre(tasks, r, target, u, v);
      var d: nat :| ResolvesTo(records, r, d, target);
      assert (u, v) in DepEdge(records, lists, r, d);
      assert (u, v) in DepEdgesOf(records, lists, r, |records[r].dependencies|);
    }
  }

  lemma NestEdgesAre(records: seq<RepoRecord>, tasks: seq<Task>, u: nat, v: nat)
    requires TasksInRange(tasks, |records|)
    ensures (u, v) in NestEdges(records, TaskLists(|records|, tasks), |records|) <==>
      LastOfRepo(tasks, u) && FirstOfRepo(tasks, v) && Nested(records, tasks, u, v)
  {
    var lists := TaskLists(|records|, tasks);
    if (u, v) in NestEdges(records, lists, |records|) {
      var outer :| 0 <= outer < |records| && (u, v) in NestEdgesOf(records, lists, outer, |records|);
      var inner :| 0 <= inner < |records| && (u, v) in NestEdge(records, lists, outer, inner);
      JoinsAre(tasks, inner, outer, u, v);
    }
    if LastOfRepo(tasks, u) && FirstOfRepo(tasks, v) && Nested(records, tasks, u, v) {
      var outer, inner := tasks[v].repo, tasks[u].repo;
      JoinsAre(tasks, inner, outer, u, v);
      assert (u, v) in NestEdge(records, lists, outer, inner);
      assert (u, v) in NestEdgesOf(records, lists, outer, |records|);
    }
  }

  /**
   One task must precede another exactly when it is the commit before it in the same
   repository, or when they are the last and the first commit of two repositories of
   which the first depends on the second or is nested in it.
   */
  lemma EdgesAre(records: seq<RepoRecord>, tasks: seq<Task>, u: nat, v: nat)
    requires TasksInRange(tasks, |records|)
    ensures (u, v) in TaskEdges(records, tasks) <==>
      NextOfRepo(tasks, u, v) || (LastOfRepo(tasks, u) && FirstOfRepo(tasks, v) && RepoPrecedes(records, tasks, u, v))
  {
    ChainEdgesAre(tasks, |records|, u, v);
    DepEdgesAre(records, tasks, u, v);
    NestEdgesAre(records, tasks, u, v);
  }
}
