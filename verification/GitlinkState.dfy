/** What `git status` shows of submodules, and what a post-sync pass makes of it. */
module GitlinkState {
  import opened Common
  import opened Text

  // A submodule counts as changed when its HEAD differs from the recorded pointer, and also
  // when its own working tree has changes. From the state before a pass this module follows
  // which repositories will be committed and which trees will stay changed.

  /** Which changed paths of a repository the post-sync stage looks at. */
  type Scope = (string, string) -> bool

  /**
   Repositories by path: their HEADs, the pointers they record, and which have
   changes of their own, inside the scope or outside it.
   */
  datatype Workspace = Workspace(heads: map<string, nat>, links: map<string, map<string, nat>>,
                                 dirty: set<string>, unscoped: set<string>)

  /** Submodules lie below the repository that records them. */
  ghost predicate Nested(ws: Workspace) {
    && ws.links.Keys <= ws.heads.Keys
    && forall r, c :: r in ws.links && c in ws.links[r] ==> IsBelow(r, c)
  }

  /** `c` is a checked-out submodule of `r`. */
  predicate Linked(ws: Workspace, r: string, c: string) {
    r in ws.links && c in ws.links[r] && c in ws.heads
  }

  /** The submodule's HEAD is not the recorded one. */
  predicate Stale(ws: Workspace, r: string, c: string) {
    Linked(ws, r, c) && ws.heads[c] != ws.links[r][c]
  }

  /** Repositories that are no shorter: what a descent from `c` can still meet. */
  function NotShorter(ws: Workspace, c: string): set<string> {
    set k | k in ws.links && |k| >= |c|
  }

  lemma DescentShrinks(ws: Workspace, r: string, c: string)
    requires Nested(ws) && Linked(ws, r, c)
    ensures NotShorter(ws, c) < NotShorter(ws, r)
  {
    BelowIsLonger(r, c);
    assert r in NotShorter(ws, r) && r !in NotShorter(ws, c);
  }

  predicate OwnChanges(ws: Workspace, c: string) {
    c in ws.dirty || c in ws.unscoped
  }

  /** `git status` in `c` shows something: changes of its own, or a submodule that is stale or changed itself. */
  predicate DirtyTree(ws: Workspace, c: string)
    requires Nested(ws)
    decreases NotShorter(ws, c)
  {
    OwnChanges(ws, c) || (c in ws.links
      && (exists d :: d in ws.links[c] && d in ws.heads
            && (Stale(ws, c, d) || (DescentShrinks(ws, c, d); DirtyTree(ws, d)))))
  }

  /** The submodules `git status` shows in a repository that has no other change in scope. */
  function GitlinkOnlyPaths(ws: Workspace, r: string, scope: Scope): set<string>
    requires Nested(ws)
  {
    if r !in ws.links || r in ws.dirty then {}
    else set c | c in ws.links[r] && c in ws.heads && scope(r, c) && (Stale(ws, r, c) || DirtyTree(ws, c))
  }

  /** No repository has pointers to commit. */
  ghost predicate Converged(ws: Workspace, repos: seq<string>, scope: Scope)
    requires Nested(ws)
  {
    forall i :: 0 <= i < |repos| ==> GitlinkOnlyPaths(ws, repos[i], scope) == {}
  }

  /** The shown submodules after `git add` of `paths` and a commit with this HEAD. */
  function Committed(ws: Workspace, r: string, paths: set<string>, head: nat): Workspace
    requires r in ws.links
  {
    var current := map c | c in ws.links[r] :: if c in paths && c in ws.heads then ws.heads[c] else ws.links[r][c];
    ws.(heads := ws.heads[r := head], links := ws.links[r := current])
  }

  // ---------------------------------------------------------------- what a pass will do

  /** A candidate whose only changes in scope can be pointers. */
  predicate Eligible(ws: Workspace, repos: seq<string>, r: string) {
    r in repos && r in ws.links && r !in ws.dirty
  }

  /** A pointer the pass brings up to date. */
  predicate Fixed(ws: Workspace, repos: seq<string>, scope: Scope, r: string, c: string) {
    Eligible(ws, repos, r) && scope(r, c)
  }

  /** The pass will record a new pointer in `r`, and so give it a new HEAD. */
  ghost predicate Moves(ws: Workspace, repos: seq<string>, scope: Scope, r: string)
    requires Nested(ws)
    decreases NotShorter(ws, r)
  {
    && Eligible(ws, repos, r)
    && (exists c :: Linked(ws, r, c) && scope(r, c)
          && (Stale(ws, r, c) || (DescentShrinks(ws, r, c); Moves(ws, repos, scope, c))))
  }

  /** The tree of `c` will still be changed after the pass. */
  ghost predicate Stays(ws: Workspace, repos: seq<string>, scope: Scope, c: string)
    requires Nested(ws)
    decreases NotShorter(ws, c)
  {
    || OwnChanges(ws, c)
    || (exists d :: Linked(ws, c, d)
          && ((DescentShrinks(ws, c, d); Stays(ws, repos, scope, d))
              || ((Stale(ws, c, d) || Moves(ws, repos, scope, d)) && !Fixed(ws, repos, scope, c, d))))
  }

  /** Some candidate shows, in scope, a submodule whose tree stays changed. */
  ghost predicate Stuck(ws: Workspace, repos: seq<string>, scope: Scope)
    requires Nested(ws)
  {
    exists r, c :: StuckOn(ws, repos, scope, r, c)
  }

  ghost predicate StuckOn(ws: Workspace, repos: seq<string>, scope: Scope, r: string, c: string)
    requires Nested(ws)
  {
    Linked(ws, r, c) && Fixed(ws, repos, scope, r, c) && Stays(ws, repos, scope, c)
  }

  // ---------------------------------------------------------------- the state half way through a pass

  /** Only HEADs and pointers change. */
  ghost predicate SameShape(s: Workspace, w: Workspace) {
    && w.heads.Keys == s.heads.Keys && w.links.Keys == s.links.Keys && w.dirty == s.dirty && w.unscoped == s.unscoped
    && forall r :: r in s.links ==> w.links[r].Keys == s.links[r].Keys
  }

  /** Pointer (r, c) when the repositories in `seen` have been looked at since `s`. */
  ghost predicate PointerOk(s: Workspace, w: Workspace, repos: seq<string>, scope: Scope, seen: set<string>,
                            r: string, c: string)
    requires Nested(s)
  {
    if r in seen && Fixed(s, repos, scope, r, c) then !Stale(w, r, c)
    else
      && (Stale(s, r, c) || (c in seen && Moves(s, repos, scope, c)) ==> Stale(w, r, c))
      && (Stale(w, r, c) ==>
            Stale(s, r, c) || (c in seen && (Moves(s, repos, scope, c) || Stays(s, repos, scope, c))))
  }

  ghost predicate PassedTo(s: Workspace, w: Workspace, repos: seq<string>, scope: Scope, seen: set<string>) {
    && Nested(s) && SameShape(s, w)
    && forall r, c :: Linked(s, r, c) ==> PointerOk(s, w, repos, scope, seen, r, c)
  }

  lemma PassStarts(s: Workspace, repos: seq<string>, scope: Scope)
    requires Nested(s)
    ensures PassedTo(s, s, repos, scope, {})
  {
  }

  /** All candidates at or below `c` have been looked at. */
  ghost predicate DoneBelow(repos: seq<string>, seen: set<string>, c: string) {
    forall q :: q in repos && (q == c || IsBelow(c, q)) ==> q in seen
  }

  lemma DoneBelowChild(s: Workspace, repos: seq<string>, seen: set<string>, c: string, d: string)
    requires Nested(s) && Linked(s, c, d) && DoneBelow(repos, seen, c)
    ensures DoneBelow(repos, seen, d)
  {
    forall q | q in repos && (q == d || IsBelow(d, q)) ensures q in seen {
      if q != d {
        BelowTransitive(c, d, q);
      }
    }
  }

  /** Once everything below has been looked at, a tree is changed exactly when it was going to stay so. */
  lemma {:induction false} TreeSettled(s: Workspace, w: Workspace, repos: seq<string>, scope: Scope, seen: set<string>, c: string)
    requires PassedTo(s, w, repos, scope, seen) && Nested(w) && DoneBelow(repos, seen, c)
    ensures DirtyTree(w, c) <==> Stays(s, repos, scope, c)
    decreases NotShorter(s, c)
  {
    forall d | Linked(s, c, d)
      ensures Stale(w, c, d) || DirtyTree(w, d) <==>
        || Stays(s, repos, scope, d)
        || ((Stale(s, c, d) || Moves(s, repos, scope, d)) && !Fixed(s, repos, scope, c, d))
    {
      DescentShrinks(s, c, d);
      DoneBelowChild(s, repos, seen, c, d);
      TreeSettled(s, w, repos, scope, seen, d);
      assert PointerOk(s, w, repos, scope, seen, c, d);
      assert Moves(s, repos, scope, d) ==> d in seen;
    }
    assert forall d :: Linked(w, c, d) <==> Linked(s, c, d);
  }

  /** What the pass finds in a repository when everything below it has been looked at. */
  lemma FoundPaths(s: Workspace, w: Workspace, repos: seq<string>, scope: Scope, seen: set<string>, r: string)
    requires PassedTo(s, w, repos, scope, seen) && Nested(w)
    requires forall q :: q in repos && IsBelow(r, q) ==> q in seen
    ensures forall c :: c in GitlinkOnlyPaths(w, r, scope) <==>
      r in s.links && r !in s.dirty && Linked(s, r, c) && scope(r, c) && (Stale(w, r, c) || Stays(s, repos, scope, c))
  {
    forall c | Linked(s, r, c) ensures DirtyTree(w, c) <==> Stays(s, repos, scope, c) {
      forall q | q in repos && (q == c || IsBelow(c, q)) ensures q in seen {
        if q != c {
          BelowTransitive(r, c, q);
        }
      }
      TreeSettled(s, w, repos, scope, seen, c);
    }
    assert forall c :: Linked(w, r, c) <==> Linked(s, r, c);
  }

  // ---------------------------------------------------------------- looking at one repository

  /** The new HEAD is one no repository has recorded, or the old one when nothing was staged. */
  predicate NewHead(w: Workspace, r: string, paths: set<string>, head: nat)
    requires r in w.heads
  {
    || (head == w.heads[r] && forall c :: c in paths ==> !Stale(w, r, c))
    || Unrecorded(w, r, head)
  }

  predicate Unrecorded(w: Workspace, r: string, head: nat) {
    forall q :: q in w.links && r in w.links[q] ==> w.links[q][r] != head
  }

  /** Nothing shown: the repository is as it will stay. */
  lemma PassedOver(s: Workspace, w: Workspace, repos: seq<string>, scope: Scope, seen: set<string>, r: string)
    requires PassedTo(s, w, repos, scope, seen) && Nested(w) && r in repos
    requires forall q :: q in repos && IsBelow(r, q) ==> q in seen
    requires GitlinkOnlyPaths(w, r, scope) == {}
    ensures PassedTo(s, w, repos, scope, seen + {r})
  {
    FoundPaths(s, w, repos, scope, seen, r);
    forall q, c | Linked(s, q, c) ensures PointerOk(s, w, repos, scope, seen + {r}, q, c) {
      assert PointerOk(s, w, repos, scope, seen, q, c);
      if q == r {
        assert Fixed(s, repos, scope, r, c) ==> c !in GitlinkOnlyPaths(w, r, scope);
      } else if c == r && Moves(s, repos, scope, r) && r !in seen {
        ShownBecauseMoved(s, w, repos, scope, seen, r);
      }
    }
  }

  /** A repository that is going to move shows a stale pointer when its turn comes. */
  lemma ShownBecauseMoved(s: Workspace, w: Workspace, repos: seq<string>, scope: Scope, seen: set<string>, r: string)
    requires PassedTo(s, w, repos, scope, seen) && Nested(w)
    requires forall q :: q in repos && IsBelow(r, q) ==> q in seen
    requires Moves(s, repos, scope, r) && r !in seen
    ensures exists c :: c in GitlinkOnlyPaths(w, r, scope) && Stale(w, r, c)
  {
    FoundPaths(s, w, repos, scope, seen, r);
    var c :| Linked(s, r, c) && scope(r, c) && (Stale(s, r, c) || Moves(s, repos, scope, c));
    assert PointerOk(s, w, repos, scope, seen, r, c);
    assert Moves(s, repos, scope, c) ==> c in seen;
    assert c in GitlinkOnlyPaths(w, r, scope);
  }

  /** A repository that shows something was going to move, or shows a tree that stays changed. */
  lemma WhyShown(s: Workspace, w: Workspace, repos: seq<string>, scope: Scope, seen: set<string>, r: string, c: string)
    requires PassedTo(s, w, repos, scope, seen) && Nested(w) && r in repos
    requires forall q :: q in repos && IsBelow(r, q) ==> q in seen
    requires c in GitlinkOnlyPaths(w, r, scope)
    ensures Linked(s, r, c) && Fixed(s, repos, scope, r, c)
    ensures (Moves(s, repos, scope, r) && r !in seen) || Stays(s, repos, scope, c)
    ensures Moves(s, repos, scope, r) || Stays(s, repos, scope, r)
  {
    FoundPaths(s, w, repos, scope, seen, r);
    assert PointerOk(s, w, repos, scope, seen, r, c);
  }

  lemma PointersAfter(s: Workspace, w: Workspace, repos: seq<string>, scope: Scope, seen: set<string>, r: string,
                      head: nat, q: string, c: string)
    requires PassedTo(s, w, repos, scope, seen) && Nested(w) && r in repos && r in w.links
    requires forall p :: p in repos && IsBelow(r, p) ==> p in seen
    requires forall p :: p in seen ==> !IsBelow(p, r)
    requires GitlinkOnlyPaths(w, r, scope) != {} && NewHead(w, r, GitlinkOnlyPaths(w, r, scope), head)
    requires Linked(s, q, c)
    ensures PointerOk(s, Committed(w, r, GitlinkOnlyPaths(w, r, scope), head), repos, scope, seen + {r}, q, c)
  {
    var paths := GitlinkOnlyPaths(w, r, scope);
    var after := Committed(w, r, paths, head);
    assert PointerOk(s, w, repos, scope, seen, q, c);
    if q == r {
      FoundPaths(s, w, repos, scope, seen, r);
      BelowIsLonger(r, c);
    } else if c == r {
      var shown :| shown in paths;
      WhyShown(s, w, repos, scope, seen, r, shown);
      if Moves(s, repos, scope, r) && r !in seen {
        ShownBecauseMoved(s, w, repos, scope, seen, r);
      }
    } else {
      assert Stale(after, q, c) <==> Stale(w, q, c);
    }
  }

  /** After the commit of one repository. */
  lemma PassedCommit(s: Workspace, w: Workspace, repos: seq<string>, scope: Scope, seen: set<string>, r: string, head: nat)
    requires PassedTo(s, w, repos, scope, seen) && Nested(w) && r in repos && r in w.links
    requires forall q :: q in repos && IsBelow(r, q) ==> q in seen
    requires forall q :: q in seen ==> !IsBelow(q, r)
    requires GitlinkOnlyPaths(w, r, scope) != {} && NewHead(w, r, GitlinkOnlyPaths(w, r, scope), head)
    ensures PassedTo(s, Committed(w, r, GitlinkOnlyPaths(w, r, scope), head), repos, scope, seen + {r})
    ensures r in seen ==> Stuck(s, repos, scope)
  {
    var after := Committed(w, r, GitlinkOnlyPaths(w, r, scope), head);
    forall q, c | Linked(s, q, c) ensures PointerOk(s, after, repos, scope, seen + {r}, q, c) {
      PointersAfter(s, w, repos, scope, seen, r, head, q, c);
    }
    var shown :| shown in GitlinkOnlyPaths(w, r, scope);
    WhyShown(s, w, repos, scope, seen, r, shown);
    if r in seen {
      assert StuckOn(s, repos, scope, r, shown);
    }
  }

  // ---------------------------------------------------------------- after a whole pass

  /** A finished pass has converged unless the workspace was stuck. */
  lemma PassDecides(s: Workspace, w: Workspace, repos: seq<string>, scope: Scope, seen: set<string>)
    requires PassedTo(s, w, repos, scope, seen) && Nested(w) && forall q :: q in repos ==> q in seen
    ensures Converged(w, repos, scope) <==> !Stuck(s, repos, scope)
  {
    forall r | r in repos
      ensures forall c :: c in GitlinkOnlyPaths(w, r, scope) <==> StuckOn(s, repos, scope, r, c)
    {
      FoundPaths(s, w, repos, scope, seen, r);
      forall c ensures c in GitlinkOnlyPaths(w, r, scope) <==> StuckOn(s, repos, scope, r, c) {
        if Linked(s, r, c) {
          assert PointerOk(s, w, repos, scope, seen, r, c);
        }
      }
    }
    if Stuck(s, repos, scope) {
      var r, c :| StuckOn(s, repos, scope, r, c);
      assert c in GitlinkOnlyPaths(w, r, scope);
      var i :| 0 <= i < |repos| && repos[i] == r;
    } else {
      forall i | 0 <= i < |repos| ensures GitlinkOnlyPaths(w, repos[i], scope) == {} {
        assert forall c :: c in GitlinkOnlyPaths(w, repos[i], scope) <==> StuckOn(s, repos, scope, repos[i], c);
      }
    }
  }

  /** After a pass no repository is going to move, and what stays changed is what was going to. */
  lemma {:induction false} NextPassMovesNothing(s: Workspace, w: Workspace, repos: seq<string>, scope: Scope,
                                                seen: set<string>, r: string)
    requires PassedTo(s, w, repos, scope, seen) && Nested(w) && forall q :: q in repos ==> q in seen
    ensures !Moves(w, repos, scope, r)
    decreases NotShorter(w, r)
  {
    forall c | Linked(w, r, c) && scope(r, c) && Eligible(w, repos, r)
      ensures !Stale(w, r, c) && !Moves(w, repos, scope, c)
    {
      DescentShrinks(w, r, c);
      NextPassMovesNothing(s, w, repos, scope, seen, c);
      assert PointerOk(s, w, repos, scope, seen, r, c);
    }
  }

  lemma {:induction false} StaysTheSame(s: Workspace, w: Workspace, repos: seq<string>, scope: Scope,
                                        seen: set<string>, c: string)
    requires PassedTo(s, w, repos, scope, seen) && Nested(w) && forall q :: q in repos ==> q in seen
    ensures Stays(w, repos, scope, c) <==> Stays(s, repos, scope, c)
    decreases NotShorter(s, c)
  {
    forall d | Linked(s, c, d)
      ensures Stays(w, repos, scope, d) || ((Stale(w, c, d) || Moves(w, repos, scope, d)) && !Fixed(w, repos, scope, c, d))
        <==> Stays(s, repos, scope, d) || ((Stale(s, c, d) || Moves(s, repos, scope, d)) && !Fixed(s, repos, scope, c, d))
    {
      DescentShrinks(s, c, d);
      StaysTheSame(s, w, repos, scope, seen, d);
      NextPassMovesNothing(s, w, repos, scope, seen, d);
      assert PointerOk(s, w, repos, scope, seen, c, d);
      assert Moves(s, repos, scope, d) ==> d in seen;
    }
    assert forall d :: Linked(w, c, d) <==> Linked(s, c, d);
  }

  /** A pass neither frees a stuck workspace nor makes one stuck. */
  lemma StuckTheSame(s: Workspace, w: Workspace, repos: seq<string>, scope: Scope, seen: set<string>)
    requires PassedTo(s, w, repos, scope, seen) && Nested(w) && forall q :: q in repos ==> q in seen
    ensures Stuck(w, repos, scope) <==> Stuck(s, repos, scope)
  {
    forall r, c ensures StuckOn(w, repos, scope, r, c) <==> StuckOn(s, repos, scope, r, c) {
      StaysTheSame(s, w, repos, scope, seen, c);
    }
  }

  // ---------------------------------------------------------------- when a workspace is stuck

  /** With no changes but pointers, and all of them in scope of some candidate, no tree stays changed. */
  lemma {:induction false} OnlyPointersSettle(ws: Workspace, repos: seq<string>, scope: Scope, c: string)
    requires Nested(ws) && ws.dirty == ws.unscoped == {}
    requires forall r, d :: Linked(ws, r, d) ==> Fixed(ws, repos, scope, r, d)
    ensures !Stays(ws, repos, scope, c)
    decreases NotShorter(ws, c)
  {
    forall d | Linked(ws, c, d) ensures !Stays(ws, repos, scope, d) {
      DescentShrinks(ws, c, d);
      OnlyPointersSettle(ws, repos, scope, d);
    }
  }

  /** So a workspace in which only pointers have changed is not stuck. */
  lemma OnlyPointersConverge(ws: Workspace, repos: seq<string>, scope: Scope)
    requires Nested(ws) && ws.dirty == ws.unscoped == {}
    requires forall r, d :: Linked(ws, r, d) ==> Fixed(ws, repos, scope, r, d)
    ensures !Stuck(ws, repos, scope)
  {
    forall r, c ensures !StuckOn(ws, repos, scope, r, c) {
      OnlyPointersSettle(ws, repos, scope, c);
    }
  }

  /** One submodule with edits of its own at the recorded HEAD: shown by its parent, and never settled. */
  lemma EditedSubmoduleIsStuck(p: string, c: string, head: nat, recorded: nat)
    requires IsBelow(p, c)
    ensures var ws, scope := Workspace(map[p := head, c := recorded], map[p := map[c := recorded]], {c}, {}), (_, _) => true;
      && Nested(ws) && !Stale(ws, p, c) && GitlinkOnlyPaths(ws, p, scope) == {c} && Stuck(ws, [p], scope)
  {
    var ws: Workspace := Workspace(map[p := head, c := recorded], map[p := map[c := recorded]], {c}, {});
    var scope: Scope := (_, _) => true;
    assert Linked(ws, p, c) && OwnChanges(ws, c);
    assert StuckOn(ws, [p], scope, p, c);
  }
}
