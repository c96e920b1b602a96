/** The interleaved queue refines the atomic queue, so the atomic queue's laws hold of the state file. */
module QueueRefinement {
  import opened Common
  import opened QueueBatch
  import opened AgentQueue
  import opened QueueInvariants
  import opened QueueProtocol
  import opened QueueRuns

  const QUEUE: Machine :=
    Machine((q: QueueState, c: Commit) => Execute(q, c.request, c.reading), (r: Request) => ValidRequest(r))

  /** The commands of a history, in commit order. */
  function Commits(history: seq<Entry>): seq<Commit> {
    if history == [] then [] else Commits(history[..|history| - 1]) + [history[|history| - 1].commit]
  }

  /** The queue after a history, with everything it admitted and dropped. */
  function TrackedAfter(history: seq<Entry>): Tracked {
    Replay(Commits(history))
  }

  lemma RunPrefix(m: Machine, history: seq<Entry>, n: nat)
    requires AtomicRun(m, history) && n <= |history|
    ensures AtomicRun(m, history[..n])
  {
    forall k | 0 <= k < n ensures Follows(m, history[..n], k) {
      assert Follows(m, history, k);
    }
  }

  lemma StateBeforeLast(history: seq<Entry>, n: nat)
    requires n < |history| && Linked(history, n)
    ensures history[n].before == LastState(history[..n])
  {
    if n > 0 {
      assert history[..n][n - 1] == history[n - 1];
    }
  }

  /** The last command of a run: executed on the state the commands before it left. */
  lemma RunLast(m: Machine, history: seq<Entry>, n: nat)
    requires AtomicRun(m, history) && n == |history| - 1
    ensures m.execute(LastState(history[..n]), history[n].commit) == (history[n].after, history[n].response)
    ensures m.valid(history[n].commit.request)
  {
    assert Follows(m, history, n);
    StateBeforeLast(history, n);
  }

  /** One more command: what replaying it adds to the replay of the ones before it. */
  lemma ReplayOne(front: seq<Commit>, e: Entry)
    requires ValidLog(front) && QUEUE.execute(StateAfter(front), e.commit) == (e.after, e.response)
    requires QUEUE.valid(e.commit.request)
    ensures ValidLog(front + [e.commit]) && StateAfter(front + [e.commit]) == e.after
    ensures Replay(front + [e.commit]) == Account(Replay(front), e.after, e.response)
  {
    ReplayAppend(front, e.commit);
  }

  /** Executing the commands of the history one after the other leads to its last state. */
  lemma {:induction false} HistoryReplays(m: Machine, history: seq<Entry>)
    requires m == QUEUE && AtomicRun(m, history)
    ensures ValidLog(Commits(history)) && StateAfter(Commits(history)) == LastState(history)
    ensures history != [] ==> var n := |history| - 1;
      TrackedAfter(history) == Account(TrackedAfter(history[..n]), history[n].after, history[n].response)
  {
    if history != [] {
      var n := |history| - 1;
      RunPrefix(m, history, n);
      HistoryReplays(m, history[..n]);
      RunLast(m, history, n);
      ReplayOne(Commits(history[..n]), history[n]);
    }
  }

  /** At every moment the state file equals the atomic queue after the committed commands, and is sound. */
  lemma StateFileIsAtomicQueue(run: seq<World>, i: nat)
    requires IsRun(QUEUE, run) && i < |run|
    ensures Stored(run[i]) == StateAfter(Commits(run[i].history))
    ensures SoundQueue(Stored(run[i])) && Conserved(TrackedAfter(run[i].history))
  {
    CommittedStatesAreAtomicRun(QUEUE, run, i);
    HistoryReplays(QUEUE, run[i].history);
    ReachableStates(Commits(run[i].history));
  }

  /**
   The state file shows an id both pending and active if and only if a committed
   admission took an id of the active batch and that batch has not ended since.
   */
  lemma StateFileSharesId(run: seq<World>, i: nat)
    requires IsRun(QUEUE, run) && i < |run|
    ensures SharesActiveId(Stored(run[i])) <==> exists k: nat :: AdmittedWhileActive(Commits(run[i].history), k)
  {
    StateFileIsAtomicQueue(run, i);
    CommittedStatesAreAtomicRun(QUEUE, run, i);
    HistoryReplays(QUEUE, run[i].history);
    SharedIdIffAdmittedWhileActive(Commits(run[i].history));
  }

  ghost predicate KeepsAccount(tracked: seq<Entry> -> Tracked, history: seq<Entry>) {
    history != [] ==>
      var n := |history| - 1;
      tracked(history) == Account(tracked(history[..n]), history[n].after, history[n].response)
  }

  lemma {:induction false} AdmittedStays(tracked: seq<Entry> -> Tracked, history: seq<Entry>, k: nat)
    requires forall n :: 0 <= n <= |history| ==> KeepsAccount(tracked, history[..n])
    requires k < |history| && history[k].response.Admitted?
    ensures history[k].response.item in tracked(history).admitted
    decreases |history|
  {
    var n := |history| - 1;
    var front := history[..n];
    assert history[..|history|] == history;
    if k < n {
      forall i | 0 <= i <= n ensures KeepsAccount(tracked, front[..i]) {
        assert front[..i] == history[..i];
      }
      AdmittedStays(tracked, front, k);
    }
  }

  lemma AccountsKept(m: Machine, history: seq<Entry>, n: nat)
    requires m == QUEUE && AtomicRun(m, history) && n <= |history|
    ensures KeepsAccount(TrackedAfter, history[..n])
  {
    RunPrefix(m, history, n);
    HistoryReplays(m, history[..n]);
  }

  /** An acknowledged admission is still pending, active or receipted, unless its receipt was evicted. */
  lemma AdmittedItemsRemain(run: seq<World>, i: nat, p: nat)
    requires IsRun(QUEUE, run) && i < |run| && p in run[i].acks && run[i].acks[p].Admitted?
    ensures run[i].acks[p].item in KeptItems(Stored(run[i])) + TrackedAfter(run[i].history).evicted
  {
    var w := run[i];
    AcknowledgedExactlyOnce(QUEUE, run, i, p);
    CommittedStatesAreAtomicRun(QUEUE, run, i);
    StateFileIsAtomicQueue(run, i);
    var k: nat :| CommitOf(w, k, p) && w.history[k].response == w.acks[p];
    forall n | 0 <= n <= |w.history| ensures KeepsAccount(TrackedAfter, w.history[..n]) {
      AccountsKept(QUEUE, w.history, n);
    }
    AdmittedStays(TrackedAfter, w.history, k);
  }
}
