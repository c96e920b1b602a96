/** What holds at every moment of every run of the interleaved queue. */
module QueueRuns {
  import opened Common
  import opened QueueBatch
  import opened AgentQueue
  import opened QueueInvariants
  import opened QueueProtocol

  /** Some process, or HEAD, takes one step. */
  ghost predicate Moves(m: Machine, w: World, after: World) {
    exists a :: Enabled(m, w, a) && after == Step(m, w, a)
  }

  /** The worlds one after the other, from the first one on. */
  ghost predicate IsRun(m: Machine, run: seq<World>) {
    run != [] && Initial(run[0]) && forall i :: 0 < i < |run| ==> Moves(m, run[i - 1], run[i])
  }

  /** Histories only grow. */
  ghost predicate Extends(history: seq<Entry>, later: seq<Entry>) {
    |history| <= |later| && forall k :: 0 <= k < |history| ==> later[k] == history[k]
  }

  lemma StepExtends(m: Machine, w: World, a: Action)
    requires Enabled(m, w, a)
    ensures Extends(w.history, Step(m, w, a).history)
  {
  }

  lemma InitialConsistent(m: Machine, w: World)
    requires Initial(w)
    ensures Consistent(m, w)
  {
  }

  /** Any interleaving, any crashes: the invariant holds in every world of a run. */
  lemma {:induction false} RunKeeps(m: Machine, run: seq<World>, i: nat)
    requires IsRun(m, run) && i < |run|
    ensures Consistent(m, run[i])
  {
    if i == 0 {
      InitialConsistent(m, run[0]);
    } else {
      RunKeeps(m, run, i - 1);
      assert Moves(m, run[i - 1], run[i]);
      var a :| Enabled(m, run[i - 1], a) && run[i] == Step(m, run[i - 1], a);
      StepKeeps(m, run[i - 1], a);
    }
  }

  /** No commit is ever taken back or rewritten. */
  lemma {:induction false} CommitsStay(m: Machine, run: seq<World>, i: nat, j: nat)
    requires IsRun(m, run) && i <= j < |run|
    ensures Extends(run[i].history, run[j].history)
  {
    if i < j {
      CommitsStay(m, run, i, j - 1);
      assert Moves(m, run[j - 1], run[j]);
      var a :| Enabled(m, run[j - 1], a) && run[j] == Step(m, run[j - 1], a);
      StepExtends(m, run[j - 1], a);
    }
  }

  /**
   Whatever the interleaving and the crashes, at every moment the renames so far form
   a run of the atomic machine, and the state file is where that run has arrived.
   */
  lemma CommittedStatesAreAtomicRun(m: Machine, run: seq<World>, i: nat)
    requires IsRun(m, run) && i < |run|
    ensures AtomicRun(m, run[i].history)
    ensures run[i].file == if run[i].history == [] then None else Some(LastState(run[i].history))
  {
    RunKeeps(m, run, i);
  }

  /** No acknowledged change is lost or made twice, and no refused command changed anything. */
  lemma AcknowledgedExactlyOnce(m: Machine, run: seq<World>, i: nat, p: nat)
    requires IsRun(m, run) && i < |run| && p in run[i].acks
    ensures Mutates(run[i].acks[p]) ==> CommittedWith(run[i], p, run[i].acks[p])
    ensures forall j, k :: CommitOf(run[i], j, p) && CommitOf(run[i], k, p) ==> j == k
    ensures !Mutates(run[i].acks[p]) ==> NoCommit(run[i], p)
  {
    RunKeeps(m, run, i);
  }

  /** An unlocked status read shows a committed state. */
  lemma StatusShowsCommitted(m: Machine, run: seq<World>, i: nat, p: nat)
    requires IsRun(m, run) && i < |run| && p < |run[i].procs| && run[i].procs[p].phase.StatusShown?
    ensures Shown(run[i], run[i].procs[p].phase.shown)
  {
    RunKeeps(m, run, i);
    assert ProcessOk(m, run[i], p);
  }

  /** Two commands are never between lock and unlock at once. */
  lemma LockIsExclusive(m: Machine, run: seq<World>, i: nat, p: nat, q: nat)
    requires IsRun(m, run) && i < |run| && p < |run[i].procs| && q < |run[i].procs|
    requires Holding(run[i].procs[p].phase) && Holding(run[i].procs[q].phase)
    ensures p == q
  {
    RunKeeps(m, run, i);
    assert ProcessOk(m, run[i], p) && ProcessOk(m, run[i], q);
  }
}
