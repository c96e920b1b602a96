/** One repository as the commit commands see it, shared with programs they do not control. */
module GitRepository {
  import opened Common
  import opened GitTree

  /** The active batch of the mutation queue, as far as commits look at it. */
  datatype ActiveBatch = ActiveBatch(id: string, files: seq<string>, baseHead: Commit)

  /** The parts of a repository the commands read and change. */
  class GitRepo {
    var head: Commit
    var index: Index
    var working: Tree
    var queueLocked: bool
    var active: Option<ActiveBatch>
    var indexLocked: bool
    var unmerged: bool
    /** The ref HEAD is attached to, other refs, and the checkouts of checkpoints being made. */
    var branch: string
    var refs: map<string, Commit>
    var checkouts: set<string>
    /** The commits this process made, and the contents it gave the real index. */
    ghost var commits: seq<Commit>
    ghost var indexWrites: seq<Index>
    /** How many calls of this process have failed, and how often other programs have changed something. */
    ghost var failures: nat
    ghost var moves: nat

    ghost predicate Valid()
      reads this
    {
      IsTree(head.tree) && IsTree(working)
    }

    constructor (head: Commit, index: Index, working: Tree, branch: string)
      requires IsTree(head.tree) && IsTree(working)
      ensures Valid() && this.head == head && this.index == index && this.working == working
    {
      this.head, this.index, this.working := head, index, working;
      queueLocked, indexLocked, unmerged, active := false, false, false, None;
      this.branch, refs, checkouts := branch, map[], {};
      commits, indexWrites, failures, moves := [], [], 0, 0;
    }

    /** Other programs may move HEAD, stage, and edit files. */
    method Interfere()
      requires Valid()
      modifies this`head, this`branch, this`index, this`working, this`indexLocked, this`moves
      ensures Valid() && moves >= old(moves)
      ensures moves == old(moves) ==>
        unchanged(this`head, this`branch, this`index, this`working, this`indexLocked)
    {
      var act: bool, h: Commit, i: Index, w: Tree := *, *, *, *;
      if act && IsTree(h.tree) && IsTree(w) {
        head, index, working := h, i, w;
        branch, indexLocked := *, *;
        moves := moves + 1;
      }
    }

    /** Other programs may move HEAD and stage; the working files stay. */
    method InterfereHead()
      requires Valid()
      modifies this`head, this`branch, this`index, this`indexLocked, this`moves
      ensures Valid() && moves >= old(moves)
      ensures moves == old(moves) ==> unchanged(this`head, this`branch, this`index, this`indexLocked)
    {
      var act: bool, h: Commit := *, *;
      if act && IsTree(h.tree) {
        head := h;
        branch, index, indexLocked := *, *, *;
        moves := moves + 1;
      }
    }

    /** A Git or file call that may fail without having done anything. */
    method Call() returns (ok: bool)
      modifies this`failures
      ensures failures == old(failures) + if ok then 0 else 1
    {
      ok := *;
      if !ok {
        failures := failures + 1;
      }
    }

    /** `git commit` with the temporary index: the new commit has its tree, which must differ from HEAD's. */
    method CommitTree(tree: Tree) returns (ok: bool)
      requires Valid() && IsTree(tree)
      modifies this`head, this`commits, this`failures
      ensures Valid()
      ensures head == if ok then Commit(old(head), tree) else old(head)
      ensures commits == if ok then old(commits) + [head] else old(commits)
      ensures ok ==> tree != old(head).tree
      ensures failures >= old(failures) && (failures == old(failures) ==> (ok <==> tree != old(head).tree))
    {
      ok := Call();
      if tree == head.tree {
        ok := false;
      }
      if ok {
        head := Commit(head, tree);
        commits := commits + [head];
      }
    }

    /** `git reset -q HEAD -- paths` on the real index. */
    method ResetIndex(paths: seq<string>) returns (ok: bool)
      requires Valid()
      modifies this`index, this`indexWrites, this`failures
      ensures index == if ok then ResetPaths(old(index), head.tree, paths) else old(index)
      ensures indexWrites == if ok then old(indexWrites) + [index] else old(indexWrites)
      ensures failures == old(failures) + if ok then 0 else 1
    {
      ok := Call();
      if ok {
        index := ResetPaths(index, head.tree, paths);
        indexWrites := indexWrites + [index];
      }
    }
  }

  /** The records of paths outside the selection. */
  function FilterUnrelated(index: Index, selected: seq<string>): Index {
    map q | q in index && q !in selected :: index[q]
  }

  lemma UnrelatedSame(before: Index, after: Index, paths: seq<string>)
    requires FilterUnrelated(after, paths) == FilterUnrelated(before, paths)
    ensures forall q :: q !in paths ==> (q in after <==> q in before) && (q in before ==> after[q] == before[q])
  {
    forall q | q !in paths ensures (q in after <==> q in before) && (q in before ==> after[q] == before[q]) {
      assert q in FilterUnrelated(before, paths) <==> q in before;
      assert q in FilterUnrelated(after, paths) <==> q in after;
      assert q in before ==> FilterUnrelated(before, paths)[q] == before[q];
      assert q in after ==> FilterUnrelated(after, paths)[q] == after[q];
    }
  }
}
