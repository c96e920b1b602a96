/** The submodule worklist: from the workspace root through every .gitmodules file it leads to. */
module SubmoduleDiscovery {
  import opened Common
  import opened Text
  import opened PathSelectors

  /** The submodule paths each directory registers; a directory without a readable .gitmodules has no entry. */
  type Modules = map<string, seq<string>>

  function Registered(modules: Modules, path: string): seq<string> {
    if path in modules then modules[path] else []
  }

  /** A chain of registrations. */
  ghost predicate Chain(modules: Modules, p: seq<string>) {
    p != [] && forall i :: 0 <= i < |p| - 1 ==> p[i + 1] in Registered(modules, p[i])
  }

  /** Some chain of at least one registration leads from the root to the path. */
  ghost predicate Reachable(modules: Modules, root: string, path: string) {
    exists p :: Chain(modules, p) && |p| >= 2 && p[0] == root && p[|p| - 1] == path
  }

  lemma ReachFurther(modules: Modules, root: string, path: string, next: string)
    requires (path == root || Reachable(modules, root, path)) && next in Registered(modules, path)
    ensures Reachable(modules, root, next)
  {
    var p := [root];
    if path != root {
      p :| Chain(modules, p) && |p| >= 2 && p[0] == root && p[|p| - 1] == path;
    }
    var q := p + [next];
    assert forall i :: 0 <= i < |q| - 1 ==> q[i + 1] in Registered(modules, q[i]);
    assert Chain(modules, q);
  }

  /** A set that contains what its members and the root register contains everything reachable. */
  lemma {:induction false} ClosedContains(modules: Modules, root: string, found: set<string>, p: seq<string>)
    requires forall x, y :: (x == root || x in found) && y in Registered(modules, x) ==> y in found
    requires Chain(modules, p) && |p| >= 2 && p[0] == root
    ensures p[|p| - 1] in found
  {
    var n := |p| - 1;
    assert p[n - 1 + 1] in Registered(modules, p[n - 1]);
    if n > 1 {
      ClosedContains(modules, root, found, p[..n]);
    }
  }

  /** Everything registered anywhere. */
  function AllRegistered(modules: Modules): set<string> {
    set d, x | d in modules && x in modules[d] :: x
  }

  /** What is found so far, with the members in `queue` still to be looked into. */
  ghost predicate Searching(modules: Modules, root: string, out: seq<string>, queue: seq<string>) {
    && (forall i :: 0 <= i < |out| ==> Reachable(modules, root, out[i]))
    && !Duplicate(out)
    && (forall x :: x in queue ==> x == root || x in out)
    && forall x, y :: (x == root || x in out) && x !in queue && y in Registered(modules, x) ==> y in out
  }

  lemma {:induction false} DistinctFits(out: seq<string>, all: set<string>)
    requires !Duplicate(out) && forall i :: 0 <= i < |out| ==> out[i] in all
    ensures |out| <= |all|
  {
    if out != [] {
      var n := |out| - 1;
      var last := out[n];
      assert forall i :: 0 <= i < n ==> out[..n][i] == out[i];
      assert last in all;
      forall i | 0 <= i < n ensures out[..n][i] in all - {last} {
      }
      DistinctFits(out[..n], all - {last});
    }
  }

  lemma ReachableIsRegistered(modules: Modules, root: string, path: string)
    requires Reachable(modules, root, path)
    ensures path in AllRegistered(modules)
  {
    var p :| Chain(modules, p) && |p| >= 2 && p[0] == root && p[|p| - 1] == path;
    assert p[|p| - 2 + 1] in Registered(modules, p[|p| - 2]);
  }

  lemma FoundFits(modules: Modules, root: string, out: seq<string>)
    requires !Duplicate(out) && forall i :: 0 <= i < |out| ==> Reachable(modules, root, out[i])
    ensures |out| <= |AllRegistered(modules)|
  {
    forall i | 0 <= i < |out| ensures out[i] in AllRegistered(modules) {
      ReachableIsRegistered(modules, root, out[i]);
    }
    DistinctFits(out, AllRegistered(modules));
  }

  lemma AppendNew(out: seq<string>, x: string)
    requires !Duplicate(out) && x !in out
    ensures !Duplicate(out + [x])
  {
  }

  /** Looks into one directory: everything it registers that is not known yet is found and queued. */
  method LookInto(modules: Modules, ghost root: string, current: string, out0: seq<string>, queue0: seq<string>)
      returns (out: seq<string>, queue: seq<string>)
    requires current == root || current in out0
    requires Searching(modules, root, out0, queue0 + [current])
    ensures Searching(modules, root, out, queue)
    ensures |out| > |out0| || (out == out0 && queue == queue0)
    ensures |out0| <= |out| <= |AllRegistered(modules)|
  {
    out, queue := out0, queue0;
    var entries := Registered(modules, current);
    for i := 0 to |entries|
      invariant out0 <= out && (|out| > |out0| || (out == out0 && queue == queue0))
      invariant Searching(modules, root, out, queue + [current])
      invariant forall k :: 0 <= k < i ==> entries[k] in out
    {
      if entries[i] !in out {
        ReachFurther(modules, root, current, entries[i]);
        AppendNew(out, entries[i]);
        out, queue := out + [entries[i]], queue + [entries[i]];
      }
    }
    assert forall x :: x in queue + [current] <==> x in queue || x == current;
    FoundFits(modules, root, out);
  }

  /** Ends even when directories register each other, and finds exactly what is reachable, sorted, once. */
  method DiscoverRegisteredPaths(modules: Modules, root: string) returns (paths: seq<string>)
    ensures forall x :: x in paths <==> Reachable(modules, root, x)
    ensures StrictlySorted(paths)
  {
    var out: seq<string>, queue := [], [root];
    while queue != []
      invariant Searching(modules, root, out, queue) && |out| <= |AllRegistered(modules)|
      decreases |AllRegistered(modules)| - |out|, |queue|
    {
      var current, rest := queue[|queue| - 1], queue[..|queue| - 1];
      assert queue == rest + [current];
      out, queue := LookInto(modules, root, current, out, rest);
    }
    forall x | Reachable(modules, root, x) ensures x in out {
      var p :| Chain(modules, p) && |p| >= 2 && p[0] == root && p[|p| - 1] == x;
      ClosedContains(modules, root, (set y | y in out), p);
    }
    paths := SortTexts(out);
    SameSelectors(out, paths);
    forall i, j | 0 <= i < j < |paths| ensures LexLess(paths[i], paths[j]) {
      LexTotal(paths[i], paths[j]);
    }
  }
}
