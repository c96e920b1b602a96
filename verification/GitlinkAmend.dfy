/**
 After a sync, repositories whose only changes are submodule pointers are committed,
 children first, until none is left.
 */
module GitlinkAmend {
  import opened Common
  import opened Text
  import opened Sorting
  import opened Layering
  import opened GitlinkState

  // ---------------------------------------------------------------- child-first waves

  /** Edges from the repositories below `parent`, among the first `count`. */
  ghost function EdgesInto(repos: seq<string>, parent: nat, count: nat): Edges
    requires parent < |repos| && count <= |repos|
  {
    set c: nat | c < count && IsBelow(repos[parent], repos[c]) :: (c, parent)
  }

  ghost function EdgesIntoFirst(repos: seq<string>, parents: nat): Edges
    requires parents <= |repos|
  {
    set p: nat, c: nat | p < parents && c < |repos| && IsBelow(repos[p], repos[c]) :: (c, p)
  }

  /** From every repository to the ones that contain it. */
  ghost function NestEdges(repos: seq<string>): Edges {
    EdgesIntoFirst(repos, |repos|)
  }

  lemma NestingHasNoCycle(repos: seq<string>)
    ensures Graph(|repos|, NestEdges(repos)) && !HasCycle(NestEdges(repos))
  {
    var rank := (v: nat) => if v < |repos| then -|repos[v]| else 0;
    forall e | e in NestEdges(repos) ensures rank(e.0) < rank(e.1) {
      BelowIsLonger(repos[e.1], repos[e.0]);
    }
    PotentialForbidsCycle(NestEdges(repos), rank);
  }

  method AddChildren(t: EdgeTable, repos: seq<string>, parent: nat)
    requires t.Valid() && t.released == {} && |t.outgoing| == |repos| && parent < |repos|
    modifies t
    ensures t.Valid() && t.released == {} && |t.outgoing| == |repos|
    ensures t.edges == old(t.edges) + EdgesInto(repos, parent, |repos|)
  {
    for child := 0 to |repos|
      invariant t.Valid() && t.released == {} && |t.outgoing| == |repos|
      invariant t.edges == old(t.edges) + EdgesInto(repos, parent, child)
    {
      assert EdgesInto(repos, parent, child + 1)
          == EdgesInto(repos, parent, child) + if IsBelow(repos[parent], repos[child]) then {(child, parent)} else {};
      if IsBelow(repos[parent], repos[child]) {
        t.AddEdge(child, parent);
      }
    }
  }

  lemma SingleWave(repos: seq<string>, waves: seq<seq<nat>>)
    requires |repos| <= 1 && waves == [if |repos| == 0 then [] else [0]]
    ensures Covers(|repos|, waves) && Respects(NestEdges(repos), waves)
  {
    forall v: nat ensures v < |repos| <==> Scheduled(waves, v) {
      assert v < |repos| ==> InWave(waves, 0, v);
    }
  }

  /** Waves of repositories, every one after all repositories below it; the cyclic fallback is dead code. */
  method BuildNestedRepoWaves(repos: seq<string>) returns (waves: seq<seq<nat>>)
    ensures Covers(|repos|, waves) && Respects(NestEdges(repos), waves)
  {
    if |repos| <= 1 {
      waves := [if |repos| == 0 then [] else [0]];
      SingleWave(repos, waves);
      return;
    }
    var t := new EdgeTable(|repos|);
    for parent := 0 to |repos|
      invariant t.Valid() && t.released == {} && |t.outgoing| == |repos|
      invariant t.edges == EdgesIntoFirst(repos, parent)
    {
      assert EdgesIntoFirst(repos, parent + 1)
          == EdgesIntoFirst(repos, parent) + EdgesInto(repos, parent, |repos|);
      AddChildren(t, repos, parent);
    }
    var keys := seq(|repos|, i requires 0 <= i < |repos| => SortKey(0, repos[i], 0));
    var layers, processed := BuildLayers(t, keys);
    ghost var n, e := |repos|, t.edges;
    NestingHasNoCycle(repos);
    LeftOverIffCycle(n, e, |layers|);
    FullCount(n, Done(n, e, |layers|));
    if processed != |repos| {
      assert false;
    }
    LayersCover(n, e, layers);
    return layers;
  }

  // ---------------------------------------------------------------- the repositories

  /** The workspace as Git keeps it; every commit gets the next identifier. */
  class Repositories {
    var heads: map<string, nat>
    var links: map<string, map<string, nat>>
    const dirty: set<string>
    const unscoped: set<string>
    var nextId: nat
    /** The repositories committed so far, in order. */
    ghost var commits: seq<string>

    function View(): Workspace
      reads this
    {
      Workspace(heads, links, dirty, unscoped)
    }

    ghost predicate Valid()
      reads this
    {
      && Nested(View())
      && (forall r, c :: r in links && c in links[r] ==> links[r][c] < nextId)
      && forall r :: r in heads ==> heads[r] < nextId
    }

    constructor (heads: map<string, nat>, links: map<string, map<string, nat>>, dirty: set<string>, unscoped: set<string>,
                 nextId: nat)
      requires Nested(Workspace(heads, links, dirty, unscoped))
      requires forall r, c :: r in links && c in links[r] ==> links[r][c] < nextId
      requires forall r :: r in heads ==> heads[r] < nextId
      ensures Valid() && commits == [] && View() == Workspace(heads, links, dirty, unscoped)
    {
      this.heads, this.links, this.dirty, this.unscoped, this.nextId := heads, links, dirty, unscoped, nextId;
      commits := [];
    }

    /**
     `git add` of the shown submodules, which stages the stale ones only, then an
     amend, or a new commit where HEAD is published already. A new commit needs
     something staged; an amend does not, and may then give the same HEAD again.
     */
    method CommitPointers(r: string, paths: set<string>) returns (ok: bool, ghost head: nat)
      requires Valid() && r in links
      modifies this`heads, this`links, this`nextId, this`commits
      ensures Valid()
      ensures !ok ==> View() == old(View()) && commits == old(commits)
      ensures ok ==> NewHead(old(View()), r, paths, head)
      ensures ok ==> View() == Committed(old(View()), r, paths, head) && commits == old(commits) + [r]
    {
      head := 0;
      var added: bool, unpublished: bool, done: bool := *, *, *;
      var staged := exists c :: c in paths && Stale(View(), r, c);
      if !added || !done || (!unpublished && !staged) {
        return false, head;
      }
      var same: bool := *;
      var id := nextId;
      if staged || !same {
        nextId := nextId + 1;
      } else {
        id := heads[r];
      }
      var current := map c | c in links[r] :: if c in paths && c in heads then heads[c] else links[r][c];
      links := links[r := current];
      heads := heads[r := id];
      commits := commits + [r];
      head := id;
      return true, id;
    }
  }

  // ---------------------------------------------------------------- one pass

  /** Node `v` comes before position `i` of wave `k`. */
  ghost predicate Before(waves: seq<seq<nat>>, k: nat, i: nat, v: nat) {
    exists j: nat, l: nat :: j < |waves| && l < |waves[j]| && waves[j][l] == v && (j < k || (j == k && l < i))
  }

  /** The repositories looked at before the position. */
  ghost function Seen(repos: seq<string>, waves: seq<seq<nat>>, k: nat, i: nat): set<string> {
    set v: nat | v < |repos| && Before(waves, k, i, v) :: repos[v]
  }

  lemma SeenNothing(repos: seq<string>, waves: seq<seq<nat>>)
    ensures Seen(repos, waves, 0, 0) == {}
  {
  }

  lemma SeenStep(repos: seq<string>, waves: seq<seq<nat>>, k: nat, i: nat)
    requires k < |waves| && i < |waves[k]| && waves[k][i] < |repos|
    ensures Seen(repos, waves, k, i + 1) == Seen(repos, waves, k, i) + {repos[waves[k][i]]}
  {
    forall v: nat ensures Before(waves, k, i + 1, v) <==> Before(waves, k, i, v) || v == waves[k][i] {
    }
  }

  lemma SeenNextWave(repos: seq<string>, waves: seq<seq<nat>>, k: nat)
    requires k < |waves|
    ensures Seen(repos, waves, k, |waves[k]|) == Seen(repos, waves, k + 1, 0)
  {
    forall v: nat ensures Before(waves, k, |waves[k]|, v) <==> Before(waves, k + 1, 0, v) {
    }
  }

  lemma SeenAll(repos: seq<string>, waves: seq<seq<nat>>)
    requires Covers(|repos|, waves)
    ensures forall q :: q in repos ==> q in Seen(repos, waves, |waves|, 0)
  {
    forall q | q in repos ensures q in Seen(repos, waves, |waves|, 0) {
      var v :| 0 <= v < |repos| && repos[v] == q;
      assert Scheduled(waves, v);
      var k: nat :| InWave(waves, k, v);
      var l: nat :| l < |waves[k]| && waves[k][l] == v;
      assert Before(waves, |waves|, 0, v);
    }
  }

  /** What is looked at earlier: every repository below, none above. */
  lemma SeenInOrder(repos: seq<string>, waves: seq<seq<nat>>, k: nat, i: nat)
    requires Covers(|repos|, waves) && Respects(NestEdges(repos), waves) && k < |waves| && i < |waves[k]|
    ensures waves[k][i] < |repos|
    ensures forall q :: q in repos && IsBelow(repos[waves[k][i]], q) ==> q in Seen(repos, waves, k, i)
    ensures forall q :: q in Seen(repos, waves, k, i) ==> !IsBelow(q, repos[waves[k][i]])
  {
    var u := waves[k][i];
    assert InWave(waves, k, u) && Scheduled(waves, u);
    forall q | q in repos && IsBelow(repos[u], q) ensures q in Seen(repos, waves, k, i) {
      var v :| 0 <= v < |repos| && repos[v] == q;
      assert (v, u) in NestEdges(repos) && Scheduled(waves, v);
      var j: nat :| InWave(waves, j, v);
      var l: nat :| l < |waves[j]| && waves[j][l] == v;
      assert Before(waves, k, i, v);
    }
    forall q | q in Seen(repos, waves, k, i) ensures !IsBelow(q, repos[u]) {
      var v: nat :| v < |repos| && Before(waves, k, i, v) && repos[v] == q;
      var j: nat, l: nat :| j < |waves| && l < |waves[j]| && waves[j][l] == v && (j < k || (j == k && l < i));
      assert InWave(waves, j, v);
      assert IsBelow(q, repos[u]) ==> (u, v) in NestEdges(repos);
    }
  }

  /** Each of the commits since `from` is of another repository. */
  ghost predicate CommittedOnce(commits: seq<string>, from: nat) {
    forall m, n :: from <= m < n < |commits| ==> commits[m] != commits[n]
  }

  /** The pass so far: where the pointers are, what was committed, and nothing changed if nothing was. */
  ghost predicate PassState(w: Repositories, s: Workspace, repos: seq<string>, scope: Scope, seen: set<string>,
                            start: seq<string>)
    requires Nested(s)
    reads w
  {
    && w.Valid() && PassedTo(s, w.View(), repos, scope, seen)
    && start <= w.commits && (forall n :: |start| <= n < |w.commits| ==> w.commits[n] in seen)
    && (!Stuck(s, repos, scope) ==> CommittedOnce(w.commits, |start|))
    && (w.commits == start ==> w.View() == s && forall q :: q in seen ==> GitlinkOnlyPaths(s, q, scope) == {})
    && (Converged(s, repos, scope) ==> w.commits == start)
  }

  /** Looks at one repository and commits its pointers when it shows nothing else. */
  method AmendOne(w: Repositories, repos: seq<string>, scope: Scope, r: string,
                  ghost s: Workspace, ghost seen: set<string>, ghost start: seq<string>)
      returns (ok: bool, changed: bool)
    requires Nested(s) && PassState(w, s, repos, scope, seen, start) && r in repos
    requires forall q :: q in repos && IsBelow(r, q) ==> q in seen
    requires forall q :: q in seen ==> !IsBelow(q, r)
    modifies w
    ensures w.Valid() && old(w.commits) <= w.commits && |w.commits| == |old(w.commits)| + if changed then 1 else 0
    ensures ok ==> PassState(w, s, repos, scope, seen + {r}, start)
    ensures !ok ==> !changed && PassState(w, s, repos, scope, seen, start) && !Converged(s, repos, scope)
  {
    var paths := GitlinkOnlyPaths(w.View(), r, scope);
    if paths == {} {
      PassedOver(s, w.View(), repos, scope, seen, r);
      return true, false;
    }
    ghost var before := w.View();
    ghost var head;
    ok, head := w.CommitPointers(r, paths);
    changed := ok;
    if ok {
      PassedCommit(s, before, repos, scope, seen, r, head);
    }
  }

  /** One wave of a pass. */
  method RunWave(w: Repositories, repos: seq<string>, scope: Scope, waves: seq<seq<nat>>, k: nat,
                 ghost s: Workspace, ghost start: seq<string>)
      returns (ok: bool, updated: nat)
    requires Covers(|repos|, waves) && Respects(NestEdges(repos), waves) && k < |waves|
    requires Nested(s) && PassState(w, s, repos, scope, Seen(repos, waves, k, 0), start)
    modifies w
    ensures w.Valid() && old(w.commits) <= w.commits && updated == |w.commits| - |old(w.commits)|
    ensures ok ==> PassState(w, s, repos, scope, Seen(repos, waves, k + 1, 0), start)
    ensures exists seen :: PassState(w, s, repos, scope, seen, start)
    ensures !ok ==> !Converged(s, repos, scope)
  {
    updated := 0;
    for i := 0 to |waves[k]|
      invariant PassState(w, s, repos, scope, Seen(repos, waves, k, i), start)
      invariant old(w.commits) <= w.commits && updated == |w.commits| - |old(w.commits)|
    {
      SeenInOrder(repos, waves, k, i);
      SeenStep(repos, waves, k, i);
      var done, committed := AmendOne(w, repos, scope, repos[waves[k][i]], s, Seen(repos, waves, k, i), start);
      if !done {
        return false, updated;
      }
      if committed {
        updated := updated + 1;
      }
    }
    SeenNextWave(repos, waves, k);
    return true, updated;
  }

  /** A pass over all waves has decided. */
  lemma PassEnds(w: Repositories, s: Workspace, repos: seq<string>, scope: Scope, waves: seq<seq<nat>>, start: seq<string>)
    requires Covers(|repos|, waves) && Nested(s)
    requires PassState(w, s, repos, scope, Seen(repos, waves, |waves|, 0), start)
    ensures Converged(w.View(), repos, scope) <==> !Stuck(s, repos, scope)
    ensures Stuck(w.View(), repos, scope) <==> Stuck(s, repos, scope)
    ensures w.commits == start <==> Converged(s, repos, scope)
  {
    SeenAll(repos, waves);
    PassDecides(s, w.View(), repos, scope, Seen(repos, waves, |waves|, 0));
    StuckTheSame(s, w.View(), repos, scope, Seen(repos, waves, |waves|, 0));
  }

  /** All waves of a pass. */
  method RunWaves(w: Repositories, repos: seq<string>, scope: Scope, waves: seq<seq<nat>>, ghost s: Workspace)
      returns (ok: bool, updated: nat)
    requires w.Valid() && s == w.View() && Covers(|repos|, waves) && Respects(NestEdges(repos), waves)
    modifies w
    ensures w.Valid() && old(w.commits) <= w.commits && updated == |w.commits| - |old(w.commits)|
    ensures ok ==> PassState(w, s, repos, scope, Seen(repos, waves, |waves|, 0), old(w.commits))
    ensures exists seen :: PassState(w, s, repos, scope, seen, old(w.commits))
    ensures !ok ==> !Converged(s, repos, scope)
  {
    updated := 0;
    PassStarts(s, repos, scope);
    SeenNothing(repos, waves);
    for k := 0 to |waves|
      invariant PassState(w, s, repos, scope, Seen(repos, waves, k, 0), old(w.commits))
      invariant updated == |w.commits| - |old(w.commits)|
    {
      var done, count := RunWave(w, repos, scope, waves, k, s, old(w.commits));
      updated := updated + count;
      if !done {
        return false, updated;
      }
    }
    return true, updated;
  }

  /** One pass over all waves: it converges exactly when the workspace is not stuck, and then commits each repository at most once. */
  method RunPass(w: Repositories, repos: seq<string>, scope: Scope) returns (ok: bool, changed: bool, updated: nat)
    requires w.Valid()
    modifies w
    ensures w.Valid() && old(w.commits) <= w.commits && updated == |w.commits| - |old(w.commits)|
    ensures ok ==> (Converged(w.View(), repos, scope) <==> !old(Stuck(w.View(), repos, scope)))
    ensures ok ==> (Stuck(w.View(), repos, scope) <==> old(Stuck(w.View(), repos, scope)))
    ensures ok ==> (changed <==> old(!Converged(w.View(), repos, scope)))
    ensures old(Converged(w.View(), repos, scope)) ==> ok
    ensures (changed <==> updated > 0) && (!changed ==> w.View() == old(w.View()))
    ensures !old(Stuck(w.View(), repos, scope)) ==> CommittedOnce(w.commits, |old(w.commits)|)
  {
    var waves := BuildNestedRepoWaves(repos);
    ghost var start, s := w.commits, w.View();
    ok, updated := RunWaves(w, repos, scope, waves, s);
    changed := updated > 0;
    if ok {
      PassEnds(w, s, repos, scope, waves, start);
    }
  }

  /**
   Repeats passes until one changes nothing. When no Git command fails it succeeds,
   with every pointer committed and each repository committed at most once, exactly
   when the workspace is not stuck; a stuck one is amended in every pass and fails.
   */
  method AutoAmendGitlinkOnlyRepos(w: Repositories, repos: seq<string>, scope: Scope)
      returns (code: int, updated: nat, ghost gitFailed: bool, ghost changingPasses: nat)
    requires w.Valid()
    modifies w
    ensures w.Valid() && old(w.commits) <= w.commits && updated == |w.commits| - |old(w.commits)|
    ensures code == 0 <==> !gitFailed && !old(Stuck(w.View(), repos, scope))
    ensures code == 0 ==> Converged(w.View(), repos, scope)
    ensures !old(Stuck(w.View(), repos, scope)) ==> CommittedOnce(w.commits, |old(w.commits)|) && changingPasses <= 1
    ensures old(Stuck(w.View(), repos, scope)) && !gitFailed ==> updated >= changingPasses >= |repos|
  {
    var maxPasses := if |repos| == 0 then 1 else |repos|;
    updated, gitFailed, changingPasses := 0, false, 0;
    ghost var stuck := Stuck(w.View(), repos, scope);
    for pass := 0 to maxPasses
      invariant w.Valid() && old(w.commits) <= w.commits && updated == |w.commits| - |old(w.commits)|
      invariant Stuck(w.View(), repos, scope) == stuck && !gitFailed && updated >= changingPasses == pass
      invariant pass > 0 ==> (Converged(w.View(), repos, scope) <==> !stuck)
      invariant !stuck ==> pass <= 1 && CommittedOnce(w.commits, |old(w.commits)|)
      invariant pass == 0 ==> w.commits == old(w.commits)
    {
      var ok, changed, count := RunPass(w, repos, scope);
      updated := updated + count;
      if !ok {
        gitFailed := true;
        return -1, updated, gitFailed, changingPasses;
      }
      if !changed {
        return 0, updated, gitFailed, changingPasses;
      }
      changingPasses := changingPasses + 1;
    }
    for i := 0 to |repos|
      invariant forall j :: 0 <= j < i ==> GitlinkOnlyPaths(w.View(), repos[j], scope) == {}
    {
      if GitlinkOnlyPaths(w.View(), repos[i], scope) != {} {
        return -1, updated, gitFailed, changingPasses;
      }
    }
    return 0, updated, gitFailed, changingPasses;
  }
}
