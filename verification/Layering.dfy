/** Kahn layering, the in-degree loop of all the schedulers, and its graph theory. */
module Layering {
  import opened Sorting

  /** Nodes are 0..n-1. */
  type Edges = set<(nat, nat)>

  ghost predicate Graph(n: nat, e: Edges) {
    forall p :: p in e ==> p.0 < n && p.1 < n
  }

  ghost function Preds(e: Edges, v: nat): set<nat> {
    set p | p in e && p.1 == v :: p.0
  }

  /** The nodes released by the first `k` waves. */
  ghost function Done(n: nat, e: Edges, k: nat): set<nat> {
    if k == 0 then {} else set v: nat | 0 <= v < n && Preds(e, v) <= Done(n, e, k - 1)
  }

  /** A chain of edges, read as the sequence of its nodes. */
  ghost predicate Walk(e: Edges, p: seq<nat>) {
    |p| >= 1 && forall i :: 0 <= i < |p| - 1 ==> (p[i], p[i + 1]) in e
  }

  ghost predicate WalkTo(e: Edges, p: seq<nat>, v: nat) {
    Walk(e, p) && p[|p| - 1] == v
  }

  ghost predicate Cycle(e: Edges, p: seq<nat>) {
    |p| >= 2 && Walk(e, p) && p[0] == p[|p| - 1]
  }

  ghost predicate HasCycle(e: Edges) {
    exists p :: Cycle(e, p)
  }

  // ---------------------------------------------------------------- chains

  lemma {:induction false} DoneGrows(n: nat, e: Edges, k: nat, m: nat)
    requires k <= m
    ensures Done(n, e, k) <= Done(n, e, m)
  {
    if k > 0 {
      DoneGrows(n, e, k - 1, m - 1);
    }
  }

  /** A node of wave `k` or earlier ends no chain of more than `k` nodes. */
  lemma {:induction false} DoneBoundsChains(n: nat, e: Edges, k: nat, v: nat, p: seq<nat>)
    requires v in Done(n, e, k) && WalkTo(e, p, v)
    ensures |p| <= k
    decreases k
  {
    if |p| >= 2 {
      var u := p[|p| - 2];
      assert (u, p[|p| - 2 + 1]) in e;
      assert u in Preds(e, v);
      DoneBoundsChains(n, e, k - 1, u, p[..|p| - 1]);
    }
  }

  /** A node left over after `k` waves ends a chain of `k + 1` nodes. */
  lemma {:induction false} LeftOverChain(n: nat, e: Edges, k: nat, v: nat) returns (p: seq<nat>)
    requires Graph(n, e) && v < n && v !in Done(n, e, k)
    ensures WalkTo(e, p, v) && |p| == k + 1
    decreases k
  {
    if k == 0 {
      p := [v];
    } else {
      var u :| u in Preds(e, v) && u !in Done(n, e, k - 1);
      var q := LeftOverChain(n, e, k - 1, u);
      p := q + [v];
    }
  }

  /** Wave number = number of nodes of the longest chain ending at the node. */
  ghost predicate LongestChain(e: Edges, v: nat, len: nat) {
    (exists p :: WalkTo(e, p, v) && |p| == len) && (forall p :: WalkTo(e, p, v) ==> |p| <= len)
  }

  lemma WaveIsLongestChain(n: nat, e: Edges, k: nat, v: nat)
    requires Graph(n, e) && v < n
    ensures v in Done(n, e, k + 1) - Done(n, e, k) <==> LongestChain(e, v, k + 1)
  {
    if v in Done(n, e, k + 1) - Done(n, e, k) {
      var p := LeftOverChain(n, e, k, v);
      forall q | WalkTo(e, q, v) ensures |q| <= k + 1 {
        DoneBoundsChains(n, e, k + 1, v, q);
      }
    }
    if LongestChain(e, v, k + 1) {
      var p :| WalkTo(e, p, v) && |p| == k + 1;
      if v in Done(n, e, k) {
        DoneBoundsChains(n, e, k, v, p);
      }
      if v !in Done(n, e, k + 1) {
        var q := LeftOverChain(n, e, k + 1, v);
      }
    }
  }

  // ---------------------------------------------------------------- cycles

  lemma {:induction false} CycleNeverDone(n: nat, e: Edges, p: seq<nat>, k: nat, i: nat)
    requires Cycle(e, p) && i < |p|
    ensures p[i] !in Done(n, e, k)
    decreases k
  {
    if k > 0 {
      var j := if i == 0 then |p| - 2 else i - 1;
      CycleNeverDone(n, e, p, k - 1, j);
      assert (p[j], p[j + 1]) in e && p[j + 1] == p[i];
      assert p[j] in Preds(e, p[i]);
    }
  }

  lemma {:induction false} CountBelow(n: nat, s: set<nat>)
    requires forall x :: x in s ==> x < n
    ensures |s| <= n
  {
    if n == 0 {
      assert s == {};
    } else {
      CountBelow(n - 1, s - {n - 1});
    }
  }

  lemma {:induction false} DistinctCount(s: seq<nat>)
    requires NoDuplicates(s)
    ensures |Elems(s)| == |s|
  {
    if s != [] {
      var rest := s[..|s| - 1];
      DistinctCount(rest);
      assert s[|s| - 1] !in rest;
      assert Elems(s) == Elems(rest) + {s[|s| - 1]};
    } else {
      assert Elems(s) == {};
    }
  }

  lemma {:induction false} WalkInGraph(n: nat, e: Edges, p: seq<nat>, v: nat)
    requires Graph(n, e) && WalkTo(e, p, v) && v < n
    ensures InRange(p, n)
  {
    forall i | 0 <= i < |p| ensures p[i] < n {
      if i < |p| - 1 {
        assert (p[i], p[i + 1]) in e;
      }
    }
  }

  /** A chain longer than the number of nodes closes on itself. */
  lemma LongWalkCloses(n: nat, e: Edges, p: seq<nat>, v: nat) returns (c: seq<nat>)
    requires Graph(n, e) && WalkTo(e, p, v) && v < n && |p| > n
    ensures Cycle(e, c)
  {
    WalkInGraph(n, e, p, v);
    if NoDuplicates(p) {
      DistinctCount(p);
      CountBelow(n, Elems(p));
    }
    var i, j :| 0 <= i < j < |p| && p[i] == p[j];
    c := p[i..j + 1];
    forall k | 0 <= k < |c| - 1 ensures (c[k], c[k + 1]) in e {
      assert (p[i + k], p[i + k + 1]) in e;
    }
  }

  lemma {:induction false} FixpointStays(n: nat, e: Edges, k: nat, m: nat)
    requires k <= m && Done(n, e, k) == Done(n, e, k + 1)
    ensures Done(n, e, m) == Done(n, e, k)
    decreases m
  {
    if k < m {
      FixpointStays(n, e, k, m - 1);
    }
  }

  ghost predicate AllNodes(n: nat, s: set<nat>) {
    forall v: nat :: v < n ==> v in s
  }

  lemma {:induction false} FullCount(n: nat, s: set<nat>)
    requires forall x :: x in s ==> x < n
    ensures |s| == n <==> AllNodes(n, s)
  {
    if n == 0 {
      assert s == {};
    } else {
      var rest := s - {n - 1};
      FullCount(n - 1, rest);
      CountBelow(n - 1, rest);
      if n - 1 in s {
        assert |rest| == |s| - 1;
        assert forall v: nat :: v < n ==> v == n - 1 || (v < n - 1 && (v in s <==> v in rest));
        assert AllNodes(n, s) ==> AllNodes(n - 1, rest);
      } else {
        assert rest == s;
      }
    }
  }

  lemma LeftOverMeansCycle(n: nat, e: Edges, k: nat, v: nat)
    requires Graph(n, e) && Done(n, e, k) == Done(n, e, k + 1)
    requires v < n && v !in Done(n, e, k)
    ensures HasCycle(e)
  {
    FixpointStays(n, e, k, k + n);
    var p := LeftOverChain(n, e, k + n, v);
    var c := LongWalkCloses(n, e, p, v);
  }

  lemma CycleMeansLeftOver(n: nat, e: Edges, k: nat, c: seq<nat>)
    requires Graph(n, e) && Cycle(e, c)
    ensures !AllNodes(n, Done(n, e, k))
  {
    CycleNeverDone(n, e, c, k, 0);
    assert (c[0], c[0 + 1]) in e;
  }

  /** When no further wave exists, something is left over exactly when there is a cycle. */
  lemma LeftOverIffCycle(n: nat, e: Edges, k: nat)
    requires Graph(n, e) && Done(n, e, k) == Done(n, e, k + 1)
    ensures !AllNodes(n, Done(n, e, k)) <==> HasCycle(e)
  {
    if !AllNodes(n, Done(n, e, k)) {
      var v: nat :| v < n && v !in Done(n, e, k);
      LeftOverMeansCycle(n, e, k, v);
    }
    if HasCycle(e) {
      var c :| Cycle(e, c);
      CycleMeansLeftOver(n, e, k, c);
    }
  }

  /** A potential that drops along every edge rules cycles out. */
  lemma PotentialForbidsCycle(e: Edges, rank: nat -> int)
    requires forall p :: p in e ==> rank(p.0) < rank(p.1)
    ensures !HasCycle(e)
  {
    forall c | Cycle(e, c) ensures false {
      RankGrows(e, rank, c, |c| - 1);
    }
  }

  lemma {:induction false} RankGrows(e: Edges, rank: nat -> int, p: seq<nat>, i: nat)
    requires forall q :: q in e ==> rank(q.0) < rank(q.1)
    requires Walk(e, p) && i < |p|
    ensures i > 0 ==> rank(p[0]) < rank(p[i])
  {
    if i > 0 {
      RankGrows(e, rank, p, i - 1);
      assert (p[i - 1], p[i - 1 + 1]) in e;
    }
  }

  // ---------------------------------------------------------------- waves

  /** `waves` lists the layers of the graph, each without duplicates. */
  ghost predicate Layers(n: nat, e: Edges, waves: seq<seq<nat>>) {
    forall k :: 0 <= k < |waves| ==>
      && Elems(waves[k]) == Done(n, e, k + 1) - Done(n, e, k)
      && NoDuplicates(waves[k]) && waves[k] != []
  }

  ghost predicate InWave(waves: seq<seq<nat>>, k: nat, v: nat) {
    k < |waves| && v in waves[k]
  }

  ghost predicate Scheduled(waves: seq<seq<nat>>, v: nat) {
    exists k :: InWave(waves, k, v)
  }

  /** Every node 0..n-1 is in exactly one wave, once, and nothing else is in any. */
  ghost predicate Covers(n: nat, waves: seq<seq<nat>>) {
    && (forall v: nat :: v < n <==> Scheduled(waves, v))
    && (forall v, j: nat, k: nat :: InWave(waves, j, v) && InWave(waves, k, v) ==> j == k)
    && (forall k :: 0 <= k < |waves| ==> NoDuplicates(waves[k]))
  }

  ghost predicate Respects(e: Edges, waves: seq<seq<nat>>) {
    forall p, j: nat, k: nat :: p in e && InWave(waves, j, p.0) && InWave(waves, k, p.1) ==> j < k
  }

  lemma {:induction false} DoneHasWave(n: nat, e: Edges, k: nat, v: nat) returns (j: nat)
    requires v in Done(n, e, k)
    ensures j < k && v in Done(n, e, j + 1) - Done(n, e, j)
    decreases k
  {
    if v in Done(n, e, k - 1) {
      j := DoneHasWave(n, e, k - 1, v);
    } else {
      j := k - 1;
    }
  }

  lemma InWaveIsDone(n: nat, e: Edges, waves: seq<seq<nat>>, k: nat, v: nat)
    requires Layers(n, e, waves) && k < |waves|
    ensures InWave(waves, k, v) <==> v in Done(n, e, k + 1) - Done(n, e, k)
  {
    assert v in waves[k] <==> v in Elems(waves[k]);
  }

  lemma OneWaveEach(n: nat, e: Edges, waves: seq<seq<nat>>, j: nat, k: nat, v: nat)
    requires Layers(n, e, waves) && InWave(waves, j, v) && InWave(waves, k, v)
    ensures j == k
  {
    InWaveIsDone(n, e, waves, j, v);
    InWaveIsDone(n, e, waves, k, v);
    if j < k { DoneGrows(n, e, j + 1, k); }
    if k < j { DoneGrows(n, e, k + 1, j); }
  }

  lemma EdgeClimbs(n: nat, e: Edges, waves: seq<seq<nat>>, u: nat, v: nat, j: nat, k: nat)
    requires Layers(n, e, waves) && (u, v) in e && InWave(waves, j, u) && InWave(waves, k, v)
    ensures j < k
  {
    InWaveIsDone(n, e, waves, j, u);
    InWaveIsDone(n, e, waves, k, v);
    assert u in Preds(e, v);
    if k <= j { DoneGrows(n, e, k, j); }
  }

  lemma WaveOf(n: nat, e: Edges, waves: seq<seq<nat>>, v: nat)
    requires Layers(n, e, waves) && v in Done(n, e, |waves|)
    ensures Scheduled(waves, v)
  {
    var j := DoneHasWave(n, e, |waves|, v);
    InWaveIsDone(n, e, waves, j, v);
  }

  /** The waves hold every node exactly once, and every edge goes to a strictly later wave. */
  lemma LayersCover(n: nat, e: Edges, waves: seq<seq<nat>>)
    requires Graph(n, e) && Layers(n, e, waves) && AllNodes(n, Done(n, e, |waves|))
    ensures Covers(n, waves) && Respects(e, waves)
  {
    forall v: nat ensures v < n <==> Scheduled(waves, v) {
      if v < n {
        WaveOf(n, e, waves, v);
      }
      if Scheduled(waves, v) {
        var k :| InWave(waves, k, v);
        InWaveIsDone(n, e, waves, k, v);
      }
    }
    forall v, j: nat, k: nat | InWave(waves, j, v) && InWave(waves, k, v) ensures j == k {
      OneWaveEach(n, e, waves, j, k, v);
    }
    forall p, j: nat, k: nat | p in e && InWave(waves, j, p.0) && InWave(waves, k, p.1) ensures j < k {
      EdgeClimbs(n, e, waves, p.0, p.1, j, k);
    }
  }

  /** No schedule that respects the edges has fewer waves than the layering. */
  lemma FewestWaves(n: nat, e: Edges, waves: seq<seq<nat>>, other: seq<seq<nat>>)
    requires Graph(n, e) && Layers(n, e, waves)
    requires Covers(n, other) && Respects(e, other)
    ensures |waves| <= |other|
  {
    if waves != [] {
      var v := waves[|waves| - 1][0];
      assert v in Elems(waves[|waves| - 1]);
      assert v in Done(n, e, |waves| - 1 + 1);
      var p := LeftOverChain(n, e, |waves| - 1, v);
      WalkInGraph(n, e, p, v);
      var k := ChainClimbs(n, e, p, other, |p| - 1);
    }
  }

  lemma {:induction false} ChainClimbs(n: nat, e: Edges, p: seq<nat>, other: seq<seq<nat>>, i: nat) returns (k: nat)
    requires Walk(e, p) && InRange(p, n) && i < |p|
    requires Covers(n, other) && Respects(e, other)
    ensures InWave(other, k, p[i]) && k >= i
  {
    assert Scheduled(other, p[i]);
    k :| InWave(other, k, p[i]);
    if i > 0 {
      var j := ChainClimbs(n, e, p, other, i - 1);
      assert (p[i - 1], p[i - 1 + 1]) in e;
    }
  }

  // ---------------------------------------------------------------- the loop

  ghost predicate OutLists(outgoing: seq<seq<nat>>, dedup: seq<set<nat>>, e: Edges)
    requires |outgoing| == |dedup|
  {
    forall u: nat :: u < |outgoing| ==>
      NoDuplicates(outgoing[u]) && Elems(outgoing[u]) == dedup[u] && dedup[u] == Succs(e, u)
  }

  ghost function Succs(e: Edges, u: nat): set<nat> {
    set p | p in e && p.0 == u :: p.1
  }

  ghost predicate Degrees(indegree: seq<nat>, e: Edges, released: set<nat>) {
    forall v: nat :: v < |indegree| ==> indegree[v] == |Preds(e, v) - released|
  }

  lemma SuccsPreds(e: Edges, u: nat, v: nat)
    ensures v in Succs(e, u) <==> (u, v) in e
    ensures u in Preds(e, v) <==> (u, v) in e
  {
  }

  lemma AddToOutLists(outgoing: seq<seq<nat>>, dedup: seq<set<nat>>, e: Edges, from: nat, to: nat)
    requires |outgoing| == |dedup| && from < |outgoing| && OutLists(outgoing, dedup, e)
    requires to !in dedup[from]
    ensures OutLists(outgoing[from := outgoing[from] + [to]], dedup[from := dedup[from] + {to}], e + {(from, to)})
  {
    var after := e + {(from, to)};
    assert (from, to) in after;
    forall u: nat ensures Succs(after, u) == Succs(e, u) + if u == from then {to} else {} {
    }
    var list := outgoing[from] + [to];
    assert Elems(list) == Elems(outgoing[from]) + {to};
    assert to !in outgoing[from];
  }

  lemma AddToDegrees(indegree: seq<nat>, e: Edges, from: nat, to: nat)
    requires to < |indegree| && Degrees(indegree, e, {}) && (from, to) !in e
    ensures Degrees(indegree[to := indegree[to] + 1], e + {(from, to)}, {})
  {
    forall v: nat {
      PredsAfterAdd(e, from, to, v);
    }
  }

  /** The out-lists, their duplicate guard and the in-degree counters. */
  class EdgeTable {
    var outgoing: seq<seq<nat>>
    var dedupOutgoing: seq<set<nat>>
    var indegree: seq<nat>
    ghost var edges: Edges
    ghost var released: set<nat>

    ghost predicate Valid()
      reads this
    {
      && |outgoing| == |dedupOutgoing| == |indegree|
      && Graph(|outgoing|, edges)
      && OutLists(outgoing, dedupOutgoing, edges)
      && Degrees(indegree, edges, released)
    }

    constructor (n: nat)
      ensures Valid() && |outgoing| == n && edges == {} && released == {}
    {
      outgoing := seq(n, i => []);
      dedupOutgoing := seq(n, i => {});
      indegree := seq(n, i => 0);
      edges := {};
      released := {};
      new;
      assert forall v: nat :: Preds(edges, v) - released == {};
    }

    method AddEdge(from: nat, to: nat)
      requires Valid() && released == {} && from < |outgoing| && to < |outgoing|
      modifies this
      ensures Valid() && released == {} && |outgoing| == old(|outgoing|)
      ensures edges == old(edges) + if from == to then {} else {(from, to)}
    {
      if from == to {
        return;
      }
      if to !in dedupOutgoing[from] {
        SuccsPreds(edges, from, to);
        AddToOutLists(outgoing, dedupOutgoing, edges, from, to);
        AddToDegrees(indegree, edges, from, to);
        dedupOutgoing := dedupOutgoing[from := dedupOutgoing[from] + {to}];
        outgoing := outgoing[from := outgoing[from] + [to]];
        indegree := indegree[to := indegree[to] + 1];
        edges := edges + {(from, to)};
      } else {
        SuccsPreds(edges, from, to);
        assert edges + {(from, to)} == edges;
      }
    }

    /** One predecessor of `v` less; true when it was the last one. */
    method Decrement(v: nat, ghost seen: seq<nat>) returns (free: bool)
      requires PartlyReleased(indegree, edges, released, seen) && v < |indegree| && v !in seen
      requires Preds(edges, v) - released != {}
      modifies this`indegree
      ensures |indegree| == old(|indegree|) && PartlyReleased(indegree, edges, released, seen + [v])
      ensures free <==> |Preds(edges, v) - released| == 1
    {
      DecrementOne(indegree, edges, released, seen, v);
      free := false;
      if indegree[v] != 0 {
        indegree := indegree[v := indegree[v] - 1];
        free := indegree[v] == 0;
      }
    }

    /** Releases `u`: the in-degrees of its successors drop; those reaching zero are reported. */
    method Release(u: nat) returns (freed: seq<nat>)
      requires Valid() && u < |outgoing| && u !in released
      modifies this`indegree, this`released
      ensures Valid() && released == old(released) + {u}
      ensures NoDuplicates(freed)
      ensures forall v: nat :: v in freed <==> u in Preds(edges, v) && Preds(edges, v) <= released
    {
      freed := [];
      var i := 0;
      ghost var succ := outgoing[u];
      SuccessorList(outgoing, dedupOutgoing, edges, u);
      while i < |outgoing[u]|
        invariant 0 <= i <= |succ| && released == old(released)
        invariant PartlyReleased(indegree, edges, released, succ[..i]) && |indegree| == |outgoing|
        invariant NoDuplicates(freed)
        invariant forall v: nat :: v in freed <==> v in succ[..i] && |Preds(edges, v) - released| == 1
      {
        var out := outgoing[u][i];
        assert out in succ && u in Preds(edges, out) - released;
        assert out !in succ[..i] && succ[..i + 1] == succ[..i] + [out];
        var free := Decrement(out, succ[..i]);
        if free {
          freed := freed + [out];
        }
        i := i + 1;
      }
      assert succ[..i] == succ;
      FinishRelease(indegree, edges, released, u, succ, freed);
      released := released + {u};
    }
  }

  /** The counters after the successors in `seen` have been decremented. */
  ghost predicate PartlyReleased(indegree: seq<nat>, e: Edges, released: set<nat>, seen: seq<nat>) {
    forall v: nat :: v < |indegree| ==>
      indegree[v] == |Preds(e, v) - released| - if v in seen then 1 else 0
  }

  lemma DecrementOne(indegree: seq<nat>, e: Edges, released: set<nat>, seen: seq<nat>, v: nat)
    requires PartlyReleased(indegree, e, released, seen) && v < |indegree| && v !in seen
    requires Preds(e, v) - released != {}
    ensures indegree[v] == |Preds(e, v) - released| > 0
    ensures PartlyReleased(indegree[v := indegree[v] - 1], e, released, seen + [v])
  {
  }

  lemma FinishRelease(indegree: seq<nat>, e: Edges, released: set<nat>, u: nat, succ: seq<nat>, freed: seq<nat>)
    requires u !in released && PartlyReleased(indegree, e, released, succ)
    requires forall v: nat :: v in succ <==> u in Preds(e, v)
    requires forall v: nat :: v in freed <==> v in succ && |Preds(e, v) - released| == 1
    ensures Degrees(indegree, e, released + {u})
    ensures forall v: nat :: v in freed <==> u in Preds(e, v) && Preds(e, v) <= released + {u}
  {
    forall v: nat {
      RemoveOne(Preds(e, v), released, u);
    }
  }

  lemma SuccessorList(outgoing: seq<seq<nat>>, dedup: seq<set<nat>>, e: Edges, u: nat)
    requires |outgoing| == |dedup| && u < |outgoing| && OutLists(outgoing, dedup, e) && Graph(|outgoing|, e)
    ensures forall v: nat :: v in outgoing[u] <==> u in Preds(e, v)
    ensures InRange(outgoing[u], |outgoing|)
  {
    forall v: nat ensures v in outgoing[u] <==> u in Preds(e, v) {
      SuccsPreds(e, u, v);
      assert v in outgoing[u] <==> v in Elems(outgoing[u]);
    }
    forall i | 0 <= i < |outgoing[u]| ensures outgoing[u][i] < |outgoing| {
      assert outgoing[u][i] in outgoing[u];
      SuccsPreds(e, u, outgoing[u][i]);
    }
  }

  lemma PredsAfterAdd(e: Edges, from: nat, to: nat, v: nat)
    requires (from, to) !in e
    ensures |Preds(e + {(from, to)}, v) - {}| == |Preds(e, v) - {}| + if v == to then 1 else 0
  {
    var after := e + {(from, to)};
    assert Preds(e, v) - {} == Preds(e, v);
    assert Preds(after, v) - {} == Preds(after, v);
    if v == to {
      assert (from, to) in after;
      assert Preds(after, v) == Preds(e, v) + {from};
      assert from !in Preds(e, v);
    } else {
      assert Preds(after, v) == Preds(e, v);
    }
  }

  lemma RemoveOne(preds: set<nat>, released: set<nat>, u: nat)
    requires u !in released
    ensures |preds - (released + {u})| == |preds - released| - if u in preds then 1 else 0
    ensures u in preds ==> (|preds - released| == 1 <==> preds <= released + {u})
  {
    var rest := preds - released;
    assert preds - (released + {u}) == rest - {u};
    if u in preds {
      assert |rest - {u}| == |rest| - 1;
      if |rest| == 1 {
        assert rest - {u} == {};
      } else {
        assert rest - {u} != {};
        var x :| x in rest - {u};
      }
    } else {
      assert rest - {u} == rest;
    }
  }

  /** std::unique on a sorted range: drops repeated neighbours. */
  method DropRepeats(s: seq<nat>) returns (r: seq<nat>)
    ensures NoDuplicates(s) ==> r == s
  {
    r := [];
    for i := 0 to |s|
      invariant NoDuplicates(s) ==> r == s[..i]
    {
      if r == [] || r[|r| - 1] != s[i] {
        r := r + [s[i]];
      }
    }
  }

  /** `v` became ready while `released` grew from `old` to `now`. */
  ghost predicate Freed(e: Edges, was: set<nat>, now: set<nat>, v: nat) {
    Preds(e, v) <= now && !(Preds(e, v) <= was)
  }

  lemma FreedStep(e: Edges, was: set<nat>, now: set<nat>, u: nat, v: nat)
    requires was <= now && u !in now
    ensures Freed(e, was, now + {u}, v) <==> Freed(e, was, now, v) || (u in Preds(e, v) && Preds(e, v) <= now + {u})
    ensures Freed(e, was, now, v) ==> u !in Preds(e, v)
  {
  }

  lemma ConcatDistinct(s: seq<nat>, t: seq<nat>)
    requires NoDuplicates(s) && NoDuplicates(t) && Elems(s) !! Elems(t)
    ensures NoDuplicates(s + t)
  {
    forall i, j | 0 <= i < j < |s + t| ensures (s + t)[i] != (s + t)[j] {
      if i < |s| <= j {
        assert s[i] in Elems(s) && t[j - |s|] in Elems(t);
      }
    }
  }

  /** One wave: releases every ready node and collects what becomes ready. */
  method ReleaseWave(t: EdgeTable, ready: seq<nat>) returns (next: seq<nat>)
    requires t.Valid() && NoDuplicates(ready) && InRange(ready, |t.outgoing|)
    requires Elems(ready) !! t.released
    modifies t`indegree, t`released
    ensures t.Valid() && t.released == old(t.released) + Elems(ready)
    ensures NoDuplicates(next) && InRange(next, |t.outgoing|)
    ensures forall v :: v in next <==> Freed(t.edges, old(t.released), t.released, v)
  {
    next := [];
    for i := 0 to |ready|
      invariant t.Valid() && t.released == old(t.released) + Elems(ready[..i])
      invariant NoDuplicates(next)
      invariant forall v :: v in next <==> Freed(t.edges, old(t.released), t.released, v)
    {
      ghost var before := t.released;
      assert ready[i] !in Elems(ready[..i]);
      assert Elems(ready[..i + 1]) == Elems(ready[..i]) + {ready[i]};
      var freed := t.Release(ready[i]);
      forall v: nat {
        FreedStep(t.edges, old(t.released), before, ready[i], v);
      }
      ConcatDistinct(next, freed);
      next := next + freed;
    }
    assert ready[..|ready|] == ready;
    forall i | 0 <= i < |next| ensures next[i] < |t.outgoing| {
      assert next[i] in next;
      var u :| u in Preds(t.edges, next[i]) && u !in old(t.released);
      assert (u, next[i]) in t.edges;
    }
  }

  method SortAndDrop(s: seq<nat>, keys: seq<SortKey>) returns (r: seq<nat>)
    requires NoDuplicates(s) && InRange(s, |keys|)
    ensures NoDuplicates(r) && Elems(r) == Elems(s) && InRange(r, |keys|) && SortedBy(r, keys)
  {
    r := SortByKey(s, keys);
    MultisetFacts(s, r);
    r := DropRepeats(r);
  }

  method InitiallyReady(t: EdgeTable) returns (ready: seq<nat>)
    requires t.Valid() && t.released == {}
    ensures NoDuplicates(ready) && InRange(ready, |t.outgoing|)
    ensures Elems(ready) == Done(|t.outgoing|, t.edges, 1)
  {
    ready := [];
    for i := 0 to |t.indegree|
      invariant NoDuplicates(ready) && InRange(ready, i)
      invariant forall v: nat :: v in ready <==> v < i && t.indegree[v] == 0
    {
      if t.indegree[i] == 0 {
        ready := ready + [i];
      }
    }
    forall v: nat | v < |t.outgoing| ensures t.indegree[v] == 0 <==> v in Done(|t.outgoing|, t.edges, 1) {
      assert Preds(t.edges, v) - {} == Preds(t.edges, v);
    }
  }

  /** `ready` is the next layer after `waves`. */
  ghost predicate NextLayer(n: nat, e: Edges, k: nat, ready: seq<nat>) {
    NoDuplicates(ready) && Elems(ready) == Done(n, e, k + 1) - Done(n, e, k)
  }

  /** The nodes whose predecessors all lie in `done`. */
  ghost function Ready(n: nat, e: Edges, done: set<nat>): set<nat> {
    set v: nat | 0 <= v < n && Preds(e, v) <= done
  }

  lemma FreedAreNext(n: nat, e: Edges, was: set<nat>, now: set<nat>, next: seq<nat>)
    requires InRange(next, n) && forall v: nat :: v in next <==> Freed(e, was, now, v)
    ensures Elems(next) == Ready(n, e, now) - Ready(n, e, was)
  {
    forall v: nat ensures v in Elems(next) <==> v in Ready(n, e, now) - Ready(n, e, was) {
      if v in next {
        assert exists i :: 0 <= i < |next| && next[i] == v;
      }
    }
  }

  lemma LayerCount(was: set<nat>, ready: seq<nat>, now: set<nat>)
    requires NoDuplicates(ready) && Elems(ready) == now - was && was <= now
    ensures was + Elems(ready) == now && |now| == |was| + |ready|
  {
    DistinctCount(ready);
    assert was + Elems(ready) == now;
  }

  lemma LayerStep(n: nat, e: Edges, k: nat, ready: seq<nat>, next: seq<nat>)
    requires Graph(n, e) && NextLayer(n, e, k, ready) && NoDuplicates(next) && InRange(next, n)
    requires forall v: nat :: v in next <==> Freed(e, Done(n, e, k), Done(n, e, k) + Elems(ready), v)
    ensures Done(n, e, k) + Elems(ready) == Done(n, e, k + 1)
    ensures |Done(n, e, k + 1)| == |Done(n, e, k)| + |ready| <= n
    ensures NextLayer(n, e, k + 1, next)
  {
    var was, now := Done(n, e, k), Done(n, e, k + 1);
    DoneGrows(n, e, k, k + 1);
    LayerCount(was, ready, now);
    CountBelow(n, now);
    FreedAreNext(n, e, was, now, next);
    assert now == Ready(n, e, was) && Done(n, e, k + 2) == Ready(n, e, now);
  }

  /** Wave `k` is released; the result is wave `k + 1`, sorted. */
  method AdvanceWave(t: EdgeTable, ghost k: nat, ready: seq<nat>, keys: seq<SortKey>) returns (next: seq<nat>)
    requires t.Valid() && |keys| == |t.outgoing| && t.released == Done(|keys|, t.edges, k)
    requires NextLayer(|keys|, t.edges, k, ready) && InRange(ready, |keys|)
    modifies t`indegree, t`released
    ensures t.Valid() && t.released == Done(|keys|, t.edges, k + 1)
    ensures |t.released| == old(|t.released|) + |ready| <= |keys|
    ensures NextLayer(|keys|, t.edges, k + 1, next) && InRange(next, |keys|) && SortedBy(next, keys)
  {
    next := ReleaseWave(t, ready);
    LayerStep(|keys|, t.edges, k, ready, next);
    next := SortAndDrop(next, keys);
  }

  /** The whole loop: waves of ready nodes until none is left. */
  method BuildLayers(t: EdgeTable, keys: seq<SortKey>) returns (waves: seq<seq<nat>>, processed: nat)
    requires t.Valid() && t.released == {} && |keys| == |t.outgoing|
    modifies t`indegree, t`released
    ensures Layers(|keys|, t.edges, waves)
    ensures Done(|keys|, t.edges, |waves|) == Done(|keys|, t.edges, |waves| + 1)
    ensures processed == |Done(|keys|, t.edges, |waves|)|
    ensures WavesSorted(waves, keys)
  {
    ghost var n, e := |keys|, t.edges;
    var initial := InitiallyReady(t);
    var ready := SortByKey(initial, keys);
    MultisetFacts(initial, ready);
    waves, processed := [], 0;
    ghost var k := 0;
    while ready != []
      invariant t.Valid() && t.released == Done(n, e, k) && processed == |t.released| <= n
      invariant k == |waves| && Layers(n, e, waves)
      invariant NextLayer(n, e, k, ready) && InRange(ready, n) && SortedBy(ready, keys)
      invariant WavesSorted(waves, keys)
      decreases n - processed
    {
      PushWave(n, e, waves, ready, keys);
      waves := waves + [ready];
      processed := processed + |ready|;
      ready := AdvanceWave(t, k, ready, keys);
      k := k + 1;
    }
    NoNextLayer(n, e, k, ready);
  }

  ghost predicate WavesSorted(waves: seq<seq<nat>>, keys: seq<SortKey>) {
    forall k :: 0 <= k < |waves| ==> InRange(waves[k], |keys|) && SortedBy(waves[k], keys)
  }

  lemma PushWave(n: nat, e: Edges, waves: seq<seq<nat>>, ready: seq<nat>, keys: seq<SortKey>)
    requires Layers(n, e, waves) && NextLayer(n, e, |waves|, ready) && ready != []
    requires WavesSorted(waves, keys) && InRange(ready, |keys|) && SortedBy(ready, keys)
    ensures Layers(n, e, waves + [ready]) && WavesSorted(waves + [ready], keys)
  {
  }

  lemma NoNextLayer(n: nat, e: Edges, k: nat, ready: seq<nat>)
    requires NextLayer(n, e, k, ready) && ready == []
    ensures Done(n, e, k) == Done(n, e, k + 1)
  {
    DoneGrows(n, e, k, k + 1);
    assert Elems(ready) == {};
    var now, later := Done(n, e, k), Done(n, e, k + 1);
    forall v | v in later ensures v in now {
      assert v in Elems(ready) <==> v !in now;
    }
  }
}
