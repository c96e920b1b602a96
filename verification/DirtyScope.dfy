/** The dirty-only commit scope: a repository stays when it, or one that depends on it, has changes. */
module DirtyScope {
  import opened Common
  import opened Sorting
  import opened Layering
  import opened TaskGraph

  /** From every repository to the ones its dependency entries resolve to. */
  ghost function DependentEdges(records: seq<RepoRecord>): Edges {
    set i: nat, d: nat, v: nat | i < |records| && d < |records[i].dependencies| && v < |records|
      && ResolvesTo(records, i, d, v) :: (i, v)
  }

  /** A chain of dependents leads from a repository with changes to `v`, or `v` has changes itself. */
  ghost predicate HasDirtyDependent(e: Edges, changed: seq<bool>, v: nat) {
    exists p :: WalkTo(e, p, v) && p[0] < |changed| && changed[p[0]]
  }

  lemma DirtyUnfolds(e: Edges, changed: seq<bool>, v: nat)
    requires Graph(|changed|, e) && v < |changed|
    ensures HasDirtyDependent(e, changed, v) <==>
      changed[v] || exists c :: c in Preds(e, v) && HasDirtyDependent(e, changed, c)
  {
    if HasDirtyDependent(e, changed, v) && !changed[v] {
      var p :| WalkTo(e, p, v) && p[0] < |changed| && changed[p[0]];
      var n := |p| - 1;
      assert (p[n - 1], p[n - 1 + 1]) in e;
      assert WalkTo(e, p[..n], p[n - 1]) && p[..n][0] == p[0];
      assert p[n - 1] in Preds(e, v) && HasDirtyDependent(e, changed, p[n - 1]);
    }
    if changed[v] {
      assert WalkTo(e, [v], v);
    }
    if c :| c in Preds(e, v) && HasDirtyDependent(e, changed, c) {
      var p :| WalkTo(e, p, c) && p[0] < |changed| && changed[p[0]];
      var q := p + [v];
      assert forall i :: 0 <= i < |q| - 1 ==> (q[i], q[i + 1]) in e;
      assert WalkTo(e, q, v);
    }
  }

  /** The dependents of every repository. */
  ghost predicate ChildLists(children: seq<seq<nat>>, e: Edges, n: nat) {
    |children| == n && forall v: nat, c: nat :: v < n ==> (c in children[v] <==> c in Preds(e, v))
  }

  /** The node ends no endless chain of dependents. */
  ghost predicate Settled(n: nat, e: Edges, v: nat) {
    exists k: nat :: v in Done(n, e, k)
  }

  /** Every entry of the memo that has been set is right, and belongs to a node whose recursion ended. */
  ghost predicate MemoOk(memo: array<int>, e: Edges, changed: seq<bool>)
    reads memo
  {
    memo.Length == |changed| && forall i: nat :: i < memo.Length && memo[i] != -1 ==>
      memo[i] == (if HasDirtyDependent(e, changed, i) then 1 else 0) && Settled(|changed|, e, i)
  }

  /** The first `i` children are released by a common number of layers. */
  ghost predicate ChildrenDone(n: nat, e: Edges, list: seq<nat>, i: nat, k: nat) {
    i <= |list| && forall j :: 0 <= j < i ==> list[j] in Done(n, e, k)
  }

  lemma OneMoreChild(n: nat, e: Edges, list: seq<nat>, i: nat, k: nat) returns (m: nat)
    requires ChildrenDone(n, e, list, i, k) && i < |list| && Settled(n, e, list[i])
    ensures ChildrenDone(n, e, list, i + 1, m)
  {
    var own: nat :| list[i] in Done(n, e, own);
    m := if own <= k then k else own;
    DoneGrows(n, e, k, m);
    DoneGrows(n, e, own, m);
  }

  lemma ParentSettled(n: nat, e: Edges, children: seq<seq<nat>>, v: nat, k: nat)
    requires Graph(n, e) && ChildLists(children, e, n) && v < n
    requires ChildrenDone(n, e, children[v], |children[v]|, k)
    ensures Settled(n, e, v)
  {
    forall u | u in Preds(e, v) ensures u in Done(n, e, k) {
      assert u in children[v];
    }
    assert v in Done(n, e, k + 1);
  }

  /**
   The recursion with room for `depth` nested calls: it ends only at nodes without
   an endless chain of dependents, and ends at all whose chains are not longer.
   */
  method KeepNode(memo: array<int>, children: seq<seq<nat>>, changed: seq<bool>, v: nat, ghost e: Edges, depth: nat)
      returns (ended: bool, keep: bool)
    requires Graph(|changed|, e) && ChildLists(children, e, |changed|) && MemoOk(memo, e, changed)
    requires v < |changed|
    modifies memo
    ensures MemoOk(memo, e, changed)
    ensures ended ==> (keep <==> HasDirtyDependent(e, changed, v)) && Settled(|changed|, e, v)
    ensures v in Done(|changed|, e, depth) ==> ended
    decreases depth
  {
    if memo[v] != -1 {
      return true, memo[v] == 1;
    }
    if depth == 0 {
      return false, false;
    }
    keep := changed[v];
    ghost var k := 0;
    for i := 0 to |children[v]|
      invariant MemoOk(memo, e, changed) && ChildrenDone(|changed|, e, children[v], i, k)
      invariant keep <==> changed[v] || exists j :: 0 <= j < i && HasDirtyDependent(e, changed, children[v][j])
    {
      var child := children[v][i];
      assert child in children[v] && child in Preds(e, v);
      var done, kept := KeepNode(memo, children, changed, child, e, depth - 1);
      if !done {
        return false, false;
      }
      if kept {
        keep := true;
      }
      k := OneMoreChild(|changed|, e, children[v], i, k);
    }
    DirtyUnfolds(e, changed, v);
    ParentSettled(|changed|, e, children, v, k);
    forall j | 0 <= j < |children[v]| ensures children[v][j] in Preds(e, v) {
      assert children[v][j] in children[v];
    }
    memo[v] := if keep then 1 else 0;
    return true, keep;
  }

  /** The dependents of each repository, from its dependency entries. */
  method CollectChildren(records: seq<RepoRecord>) returns (children: seq<seq<nat>>)
    ensures ChildLists(children, DependentEdges(records), |records|)
  {
    var idxByPath := IndexByPath(records);
    children := seq(|records|, i => []);
    for i := 0 to |records|
      invariant |children| == |records|
      invariant forall v: nat, c: nat :: v < |records| ==> (c in children[v] <==> c < i && DependsOn(records, c, v))
    {
      children := AddDependent(records, idxByPath, children, i);
    }
    forall v: nat, c: nat | v < |records| ensures c in children[v] <==> c in Preds(DependentEdges(records), v) {
      DependentEdge(records, c, v);
    }
  }

  ghost predicate DependsOn(records: seq<RepoRecord>, c: nat, v: nat) {
    c < |records| && v < |records| && exists d: nat :: ResolvesTo(records, c, d, v)
  }

  lemma DependentEdge(records: seq<RepoRecord>, c: nat, v: nat)
    ensures c in Preds(DependentEdges(records), v) <==> DependsOn(records, c, v)
  {
    assert c in Preds(DependentEdges(records), v) <==> (c, v) in DependentEdges(records);
  }

  /** Files repository `i` under everything its dependency entries resolve to. */
  method AddDependent(records: seq<RepoRecord>, idxByPath: map<string, nat>, before: seq<seq<nat>>, i: nat)
      returns (children: seq<seq<nat>>)
    requires Indexes(idxByPath, records) && |before| == |records| && i < |records|
    requires forall v: nat :: v < |records| ==> i !in before[v]
    ensures |children| == |records|
    ensures forall v: nat, c: nat :: v < |records| ==>
      (c in children[v] <==> c in before[v] || (c == i && DependsOn(records, i, v)))
  {
    children := before;
    for d := 0 to |records[i].dependencies|
      invariant |children| == |records|
      invariant forall v: nat, c: nat :: v < |records| ==>
        (c in children[v] <==> c in before[v] || (c == i && exists f: nat :: f < d && ResolvesTo(records, i, f, v)))
    {
      var dep := records[i].dependencies[d];
      if dep in idxByPath {
        var v := idxByPath[dep];
        assert ResolvesTo(records, i, d, v);
        children := children[v := children[v] + [i]];
      }
    }
  }

  /** Recursion from every repository ends for no depth when the dependencies have a cycle. */
  lemma SettledMeansAcyclic(n: nat, e: Edges)
    requires Graph(n, e) && forall v: nat :: v < n ==> Settled(n, e, v)
    ensures !HasCycle(e)
  {
    forall c | Cycle(e, c) ensures false {
      assert (c[0], c[0 + 1]) in e;
      assert Settled(n, e, c[0]);
      var k: nat :| c[0] in Done(n, e, k);
      CycleNeverDone(n, e, c, k, 0);
    }
  }

  /**
   With room for `depth` nested calls. The filter ends only on an acyclic dependency
   graph, where as many calls as there are repositories are enough; then it keeps, in
   order, the repositories with changes or a dependent that has some.
   */
  method FilterDirty(records: seq<RepoRecord>, changed: seq<bool>, depth: nat) returns (kept: Option<seq<nat>>)
    requires |changed| == |records|
    ensures kept.Some? ==> !HasCycle(DependentEdges(records))
    ensures !HasCycle(DependentEdges(records)) && depth >= |records| ==> kept.Some?
    ensures kept.Some? ==> forall i, j :: 0 <= i < j < |kept.value| ==> kept.value[i] < kept.value[j]
    ensures kept.Some? ==> forall v: nat :: v in kept.value <==>
      v < |records| && HasDirtyDependent(DependentEdges(records), changed, v)
  {
    var children := CollectChildren(records);
    ghost var e, n := DependentEdges(records), |records|;
    if !HasCycle(e) && depth >= n {
      AllLayered(n, e);
      DoneGrows(n, e, n, depth);
    }
    var memo := new int[|records|](_ => -1);
    var filtered: seq<nat> := [];
    for i := 0 to |records|
      invariant MemoOk(memo, e, changed)
      invariant forall v: nat :: v < i ==> Settled(n, e, v)
      invariant forall j :: 0 <= j < |filtered| ==> filtered[j] < i
      invariant forall j, l :: 0 <= j < l < |filtered| ==> filtered[j] < filtered[l]
      invariant forall v: nat :: v in filtered <==> v < i && HasDirtyDependent(e, changed, v)
    {
      var ended, keep := KeepNode(memo, children, changed, i, e, depth);
      if !ended {
        return None;
      }
      if keep {
        filtered := filtered + [i];
      }
    }
    SettledMeansAcyclic(n, e);
    return Some(filtered);
  }

  /** Without a cycle, as many layers as nodes hold every node. */
  lemma AllLayered(n: nat, e: Edges)
    requires Graph(n, e) && !HasCycle(e)
    ensures AllNodes(n, Done(n, e, n))
  {
    forall v: nat | v < n ensures v in Done(n, e, n) {
      if v !in Done(n, e, n) {
        var p := LeftOverChain(n, e, n, v);
        var c := LongWalkCloses(n, e, p, v);
      }
    }
  }
}
