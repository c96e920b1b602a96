/** What holds of the queue after every run of commands. */
module QueueInvariants {
  import opened Common
  import opened QueueBatch
  import opened AgentQueue

  /** A command that took effect: what it asked for and what it read. */
  datatype Commit = Commit(request: Request, reading: Reading)

  /** The queue together with the items it ever admitted and the ones it has dropped. */
  datatype Tracked = Tracked(q: QueueState, admitted: multiset<Item>, evicted: multiset<Item>)

  function BatchItems(batches: seq<Batch>): multiset<Item> {
    if batches == [] then multiset{} else BatchItems(batches[..|batches| - 1]) + multiset(batches[|batches| - 1].items)
  }

  function ActiveItems(q: QueueState): multiset<Item> {
    if q.active.None? then multiset{} else multiset(q.active.value.items)
  }

  /** Items still visible in the state file. */
  function KeptItems(q: QueueState): multiset<Item> {
    multiset(q.pending) + ActiveItems(q) + BatchItems(q.receipts)
  }

  /** Bookkeeping of one command that led to `q`. */
  function Account(t: Tracked, q: QueueState, response: Response): Tracked {
    match response
    case Admitted(item) => Tracked(q, t.admitted + multiset{item}, t.evicted)
    case Completed(receipt) =>
      Tracked(q, t.admitted,
              if |t.q.receipts| >= MAX_RECEIPTS then t.evicted + multiset(t.q.receipts[0].items) else t.evicted)
    case _ => Tracked(q, t.admitted, t.evicted)
  }

  function Track(t: Tracked, c: Commit): Tracked {
    var (q, response) := Execute(t.q, c.request, c.reading);
    Account(t, q, response)
  }

  function Replay(log: seq<Commit>): Tracked {
    if log == [] then Tracked(EMPTY_STATE, multiset{}, multiset{})
    else Track(Replay(log[..|log| - 1]), log[|log| - 1])
  }

  /** The state a log of commands leads to. */
  function StateAfter(log: seq<Commit>): QueueState {
    Replay(log).q
  }

  /** All requests in the log passed the checks made before the lock. */
  ghost predicate ValidLog(log: seq<Commit>) {
    forall i :: 0 <= i < |log| ==> ValidRequest(log[i].request)
  }

  // ---------------------------------------------------------------- the invariant

  ghost predicate ValidItem(item: Item) {
    && item.files != []
    && (forall path :: path in item.chunks ==> path in item.files && ValidChunks(item.chunks[path]))
    && (forall path :: path in item.postconditions ==> path in item.files && item.postconditions[path] != "")
  }

  ghost predicate DistinctIds(items: seq<Item>) {
    forall i, j :: 0 <= i < j < |items| ==> items[i].id != items[j].id
  }

  /** A batch as drain built it: non-empty, compatible, at its base HEAD, covering its items' files. */
  ghost predicate SoundBatch(b: Batch) {
    && b.items != [] && Accepts(b.items, b.baseHead) && DistinctIds(b.items)
    && FilesOf(b.items, b.files) && |b.itemIds| == |b.items|
    && (forall i :: 0 <= i < |b.items| ==> b.itemIds[i] == b.items[i].id && ValidItem(b.items[i]))
  }

  ghost predicate SoundQueue(q: QueueState) {
    && DistinctIds(q.pending) && (forall i :: 0 <= i < |q.pending| ==> ValidItem(q.pending[i]))
    && (q.active.Some? ==> SoundBatch(q.active.value) && q.active.value.status == Active)
    && |q.receipts| <= MAX_RECEIPTS
    && (forall i :: 0 <= i < |q.receipts| ==> SoundBatch(q.receipts[i]))
  }

  ghost predicate Conserved(t: Tracked) {
    t.admitted == KeptItems(t.q) + t.evicted
  }

  lemma {:induction false} ChunkMapValid(chunks: seq<(string, Chunk)>, files: seq<string>)
    requires forall i :: 0 <= i < |chunks| ==> chunks[i].0 in files && 0 < chunks[i].1.start <= chunks[i].1.end
    ensures forall path :: path in ChunkMap(chunks) ==> path in files && ValidChunks(ChunkMap(chunks)[path])
  {
    if chunks != [] {
      ChunkMapValid(chunks[..|chunks| - 1], files);
    }
  }

  lemma {:induction false} PostconditionMapValid(posts: seq<(string, string)>, files: seq<string>)
    requires forall i :: 0 <= i < |posts| ==> posts[i].0 in files && posts[i].1 != []
    ensures forall path :: path in PostconditionMap(posts) ==> path in files && PostconditionMap(posts)[path] != ""
  {
    if posts != [] {
      PostconditionMapValid(posts[..|posts| - 1], files);
    }
  }

  /** Every command keeps the queue sound. */
  lemma {:induction false} ExecuteKeepsSound(q: QueueState, r: Request, reading: Reading)
    requires SoundQueue(q) && ValidRequest(r)
    ensures SoundQueue(Execute(q, r, reading).0)
  {
    match r
    case Admit(_, _, _, files, chunks, posts, _) =>
      ChunkMapValid(chunks, files);
      PostconditionMapValid(posts, files);
    case Drain(_) =>
      if reading.head.Some? {
        PlansIffAccepts(q.pending, reading.head.value);
      }
    case Complete(_, _) =>
  }

  lemma {:induction false} DropFirstBatch(batches: seq<Batch>)
    requires batches != []
    ensures BatchItems(batches) == multiset(batches[0].items) + BatchItems(batches[1..])
  {
    if |batches| > 1 {
      var front := batches[..|batches| - 1];
      DropFirstBatch(front);
      assert batches[1..][..|batches| - 2] == front[1..];
    } else {
      assert batches[..0] == [] && batches[1..] == [];
    }
  }

  lemma {:induction false} AppendBatch(batches: seq<Batch>, b: Batch)
    ensures BatchItems(batches + [b]) == BatchItems(batches) + multiset(b.items)
  {
    assert (batches + [b])[..|batches|] == batches;
  }

  lemma {:induction false} PushPending(q: QueueState, item: Item)
    ensures KeptItems(q.(pending := q.pending + [item])) == KeptItems(q) + multiset{item}
  {
    assert multiset(q.pending + [item]) == multiset(q.pending) + multiset{item};
  }

  lemma PendingToActive(q: QueueState, batch: Batch)
    requires q.active.None? && batch.items == q.pending
    ensures KeptItems(QueueState([], Some(batch), q.receipts)) == KeptItems(q)
  {
  }

  lemma {:induction false} ActiveToReceipt(q: QueueState, receipt: Batch)
    requires q.active.Some? && q.active.value.items == receipt.items
    ensures var receipts := q.receipts + [receipt];
      && KeptItems(QueueState(q.pending, None, receipts)) == KeptItems(q)
      && KeptItems(QueueState(q.pending, None, receipts[1..])) + multiset(receipts[0].items) == KeptItems(q)
  {
    AppendBatch(q.receipts, receipt);
    DropFirstBatch(q.receipts + [receipt]);
  }

  /** What each answer says about the change of state. */
  predicate Effect(before: QueueState, after: QueueState, response: Response) {
    match response
    case Admitted(item) => after == before.(pending := before.pending + [item])
    case Activated(batch) =>
      before.active.None? && batch.items == before.pending && after == QueueState([], Some(batch), before.receipts)
    case Completed(receipt) =>
      var receipts := before.receipts + [receipt];
      && before.active.Some? && before.active.value.items == receipt.items
      && after == QueueState(before.pending, None, if |receipts| > MAX_RECEIPTS then receipts[1..] else receipts)
    case _ => after == before
  }

  lemma ExecuteEffect(q: QueueState, r: Request, reading: Reading)
    ensures Effect(q, Execute(q, r, reading).0, Execute(q, r, reading).1)
  {
  }

  lemma {:induction false} CompletedConserves(t: Tracked, q: QueueState, receipt: Batch)
    requires Conserved(t) && |t.q.receipts| <= MAX_RECEIPTS && Effect(t.q, q, Completed(receipt))
    ensures Conserved(Account(t, q, Completed(receipt)))
  {
    ActiveToReceipt(t.q, receipt);
    var receipts := t.q.receipts + [receipt];
    assert t.q.receipts != [] ==> receipts[0] == t.q.receipts[0];
  }

  lemma {:induction false} AccountConserves(t: Tracked, q: QueueState, response: Response)
    requires Conserved(t) && |t.q.receipts| <= MAX_RECEIPTS && Effect(t.q, q, response)
    ensures Conserved(Account(t, q, response))
  {
    match response
    case Admitted(item) => PushPending(t.q, item);
    case Activated(batch) => PendingToActive(t.q, batch);
    case Completed(receipt) => CompletedConserves(t, q, receipt);
    case _ =>
  }

  /** Every command conserves the items. */
  lemma {:induction false} TrackConserves(t: Tracked, c: Commit)
    requires Conserved(t) && |t.q.receipts| <= MAX_RECEIPTS
    ensures Conserved(Track(t, c))
  {
    ExecuteEffect(t.q, c.request, c.reading);
    AccountConserves(t, Execute(t.q, c.request, c.reading).0, Execute(t.q, c.request, c.reading).1);
  }

  lemma {:induction false} TrackKeeps(t: Tracked, c: Commit)
    requires SoundQueue(t.q) && Conserved(t) && ValidRequest(c.request)
    ensures SoundQueue(Track(t, c).q) && Conserved(Track(t, c))
  {
    ExecuteKeepsSound(t.q, c.request, c.reading);
    TrackConserves(t, c);
    assert Track(t, c).q == Execute(t.q, c.request, c.reading).0;
  }

  lemma NothingTracked()
    ensures SoundQueue(StateAfter([])) && Conserved(Replay([]))
  {
  }

  /** Every reachable state: sound, at most 100 receipts, and no item lost or invented. */
  lemma {:induction false} ReachableStates(log: seq<Commit>)
    requires ValidLog(log)
    ensures SoundQueue(StateAfter(log)) && Conserved(Replay(log))
  {
    if log == [] {
      NothingTracked();
    } else {
      ReachableStates(log[..|log| - 1]);
      TrackKeeps(Replay(log[..|log| - 1]), log[|log| - 1]);
    }
  }

  /** In an active batch, no line of a shared file is claimed twice unless the postconditions agree. */
  lemma {:induction false} ActiveBatchClaims(log: seq<Commit>, i: nat, j: nat, path: string)
    requires ValidLog(log) && StateAfter(log).active.Some?
    requires i < j < |StateAfter(log).active.value.items|
    requires path in StateAfter(log).active.value.items[i].files && path in StateAfter(log).active.value.items[j].files
    ensures var a, b := StateAfter(log).active.value.items[i], StateAfter(log).active.value.items[j];
      || (PostconditionFor(a, path) != "" && PostconditionFor(a, path) == PostconditionFor(b, path))
      || (forall line :: !(HasLine(ChunksFor(a, path), line) && HasLine(ChunksFor(b, path), line)))
  {
    ReachableStates(log);
    var a, b := StateAfter(log).active.value.items[i], StateAfter(log).active.value.items[j];
    assert CompatibleItems(a, b);
    assert path in StringSet(a.files) && PathCompatible(a, b, path);
    ApartMeansNoSharedLine(ChunksFor(a, path), ChunksFor(b, path));
  }

  lemma {:induction false} ReplayAppend(log: seq<Commit>, c: Commit)
    ensures Replay(log + [c]) == Track(Replay(log), c)
  {
    assert (log + [c])[..|log|] == log;
  }

  /** A pending item and an item of the active batch carry the same id. */
  ghost predicate SharesActiveId(q: QueueState) {
    q.active.Some? && exists i, j ::
      0 <= i < |q.pending| && 0 <= j < |q.active.value.items| && q.pending[i].id == q.active.value.items[j].id
  }

  /** The command admits an item under an id that an item of the active batch has. */
  ghost predicate AdmitsActiveId(q: QueueState, c: Commit) {
    Answers(q, c).Admitted? && q.active.Some? && c.request.Admit? && c.request.id in q.active.value.itemIds
  }

  function Answers(q: QueueState, c: Commit): Response {
    Execute(q, c.request, c.reading).1
  }

  /** The command ends the active batch or begins one. */
  predicate EndsBatch(q: QueueState, c: Commit) {
    Answers(q, c).Completed? || Answers(q, c).Activated?
  }

  /** An admission to a queue without a shared id makes one exactly when its id is among the active batch's. */
  lemma {:induction false} AdmissionSharesIffActive(q: QueueState, r: Request, reading: Reading)
    requires SoundQueue(q) && !SharesActiveId(q) && r.Admit?
    ensures SharesActiveId(Execute(q, r, reading).0) <==>
      Execute(q, r, reading).1.Admitted? && q.active.Some? && r.id in q.active.value.itemIds
  {
    var after := Execute(q, r, reading).0;
    if Execute(q, r, reading).1.Admitted? && q.active.Some? {
      var items, n := q.active.value.items, |q.pending|;
      assert after.pending[n].id == r.id && after.active == q.active;
      if j :| 0 <= j < |items| && items[j].id == r.id {
        assert q.active.value.itemIds[j] == r.id;
        assert after.pending[n].id == after.active.value.items[j].id;
      }
      if r.id in q.active.value.itemIds {
        var j :| 0 <= j < |q.active.value.itemIds| && q.active.value.itemIds[j] == r.id;
        assert items[j].id == r.id;
      }
      if SharesActiveId(after) {
        var i, j :| 0 <= i < |after.pending| && 0 <= j < |items| && after.pending[i].id == items[j].id;
        assert i == n;
        assert q.active.value.itemIds[j] == items[j].id;
      }
    }
  }

  /** A shared id stays until the batch ends. */
  lemma {:induction false} SharedStays(q: QueueState, c: Commit)
    requires SharesActiveId(q)
    ensures SharesActiveId(Execute(q, c.request, c.reading).0) <==> !EndsBatch(q, c)
  {
    var after := Execute(q, c.request, c.reading).0;
    ExecuteEffect(q, c.request, c.reading);
    var i, j :| 0 <= i < |q.pending| && 0 <= j < |q.active.value.items| && q.pending[i].id == q.active.value.items[j].id;
    if !EndsBatch(q, c) {
      assert after.pending[i].id == after.active.value.items[j].id;
    }
  }

  /** One command: a shared id was there and the batch goes on, or the command admits it. */
  lemma {:induction false} SharedAfter(q: QueueState, c: Commit)
    requires SoundQueue(q)
    ensures SharesActiveId(Execute(q, c.request, c.reading).0) <==>
      (SharesActiveId(q) && !EndsBatch(q, c)) || AdmitsActiveId(q, c)
  {
    if SharesActiveId(q) {
      SharedStays(q, c);
    } else if c.request.Admit? {
      AdmissionSharesIffActive(q, c.request, c.reading);
    } else {
      ExecuteEffect(q, c.request, c.reading);
    }
  }

  /** Command `k` of the log. */
  ghost predicate AdmitsAt(log: seq<Commit>, k: nat) {
    k < |log| && AdmitsActiveId(StateAfter(log[..k]), log[k])
  }

  ghost predicate EndsAt(log: seq<Commit>, k: nat) {
    k < |log| && EndsBatch(StateAfter(log[..k]), log[k])
  }

  /** Among the first `n`, number `k` begins something that none after it ends. */
  ghost predicate Since(begins: nat -> bool, ends: nat -> bool, n: nat, k: nat) {
    k < n && begins(k) && forall m :: k < m < n ==> !ends(m)
  }

  ghost predicate SomeSince(begins: nat -> bool, ends: nat -> bool, n: nat) {
    exists k: nat :: Since(begins, ends, n, k)
  }

  lemma {:induction false} SinceStep(begins: nat -> bool, ends: nat -> bool, n: nat)
    ensures SomeSince(begins, ends, n + 1) <==> (SomeSince(begins, ends, n) && !ends(n)) || begins(n)
  {
    if begins(n) {
      assert Since(begins, ends, n + 1, n);
    }
    if SomeSince(begins, ends, n) && !ends(n) {
      var k: nat :| Since(begins, ends, n, k);
      assert Since(begins, ends, n + 1, k);
    }
    if SomeSince(begins, ends, n + 1) {
      var k: nat :| Since(begins, ends, n + 1, k);
      assert k < n ==> Since(begins, ends, n, k);
    }
  }

  lemma {:induction false} SharedNext(log: seq<Commit>, c: Commit)
    requires ValidLog(log)
    ensures SharesActiveId(StateAfter(log + [c])) <==>
      (SharesActiveId(StateAfter(log)) && !EndsBatch(StateAfter(log), c)) || AdmitsActiveId(StateAfter(log), c)
  {
    ReachableStates(log);
    StateAppend(log, c);
    SharedAfter(StateAfter(log), c);
  }

  lemma {:induction false} SharedAfterOne(log: seq<Commit>, n: nat)
    requires ValidLog(log) && n < |log|
    ensures SharesActiveId(StateAfter(log[..n + 1])) <==>
      (SharesActiveId(StateAfter(log[..n])) && !EndsAt(log, n)) || AdmitsAt(log, n)
  {
    SharedNext(log[..n], log[n]);
    assert log[..n + 1] == log[..n] + [log[n]];
  }

  /** The functions are what the commands of the log do. */
  ghost predicate Describe(begins: nat -> bool, ends: nat -> bool, log: seq<Commit>) {
    forall i: nat :: (begins(i) <==> AdmitsAt(log, i)) && (ends(i) <==> EndsAt(log, i))
  }

  lemma {:induction false} DescribedStep(log: seq<Commit>, n: nat, begins: nat -> bool, ends: nat -> bool)
    requires ValidLog(log) && n < |log| && Describe(begins, ends, log)
    ensures SharesActiveId(StateAfter(log[..n + 1])) <==>
      (SharesActiveId(StateAfter(log[..n])) && !ends(n)) || begins(n)
  {
    SharedAfterOne(log, n);
  }

  lemma NothingShared()
    ensures !SharesActiveId(StateAfter([]))
  {
  }

  /** After the first `n` commands an id is shared. */
  ghost predicate SharedAt(log: seq<Commit>, n: nat) {
    n <= |log| && SharesActiveId(StateAfter(log[..n]))
  }

  ghost predicate GoesOn(shared: nat -> bool, begins: nat -> bool, ends: nat -> bool, n: nat) {
    shared(n + 1) <==> (shared(n) && !ends(n)) || begins(n)
  }

  /** What starts false and at each number is begun or goes on unless ended holds when something has begun since. */
  lemma {:induction false} HoldsIffSince(shared: nat -> bool, begins: nat -> bool, ends: nat -> bool, n: nat)
    requires !shared(0) && forall m: nat :: m < n ==> GoesOn(shared, begins, ends, m)
    ensures shared(n) <==> SomeSince(begins, ends, n)
  {
    if n > 0 {
      HoldsIffSince(shared, begins, ends, n - 1);
      SinceStep(begins, ends, n - 1);
      assert GoesOn(shared, begins, ends, n - 1);
    }
  }

  lemma {:induction false} SharedIffSince(log: seq<Commit>, begins: nat -> bool, ends: nat -> bool)
    requires ValidLog(log) && Describe(begins, ends, log)
    ensures SharedAt(log, |log|) <==> SomeSince(begins, ends, |log|)
  {
    var shared := (n: nat) => SharedAt(log, n);
    assert log[..0] == [];
    NothingShared();
    forall m: nat | m < |log| ensures GoesOn(shared, begins, ends, m) {
      DescribedStep(log, m, begins, ends);
    }
    HoldsIffSince(shared, begins, ends, |log|);
  }

  /** Command `k` admitted an id of the active batch, and that batch has not ended since. */
  ghost predicate AdmittedWhileActive(log: seq<Commit>, k: nat) {
    AdmitsAt(log, k) && forall m :: k < m < |log| ==> !EndsAt(log, m)
  }

  /**
   In a reachable queue a pending and an active item share an id if and only if some
   admission took an id of the active batch and that batch has not ended since.
   */
  lemma {:induction false} SharedIdIffAdmittedWhileActive(log: seq<Commit>)
    requires ValidLog(log)
    ensures SharesActiveId(StateAfter(log)) <==> exists k: nat :: AdmittedWhileActive(log, k)
  {
    var begins, ends := (i: nat) => AdmitsAt(log, i), (i: nat) => EndsAt(log, i);
    SharedIffSince(log, begins, ends);
    assert log[..|log|] == log;
    SinceMeansActive(log, begins, ends);
  }

  lemma {:induction false} SinceMeansActive(log: seq<Commit>, begins: nat -> bool, ends: nat -> bool)
    requires Describe(begins, ends, log)
    ensures SomeSince(begins, ends, |log|) <==> exists k: nat :: AdmittedWhileActive(log, k)
  {
    if SomeSince(begins, ends, |log|) {
      var k: nat :| Since(begins, ends, |log|, k);
      assert AdmittedWhileActive(log, k);
    }
    if k: nat :| AdmittedWhileActive(log, k) {
      assert Since(begins, ends, |log|, k);
    }
  }

  const ADMIT_X := Commit(Admit("x", "w", "a", ["f"], [], [], []), Reading(Some("h"), "1", ""))
  const DRAIN_ALL := Commit(Drain(true), Reading(Some("h"), "2", "3"))

  lemma {:induction false} DrainOne(item: Item) returns (batch: Batch)
    requires item.baseHead == "h"
    ensures Execute(QueueState([item], None, []), DRAIN_ALL.request, DRAIN_ALL.reading)
      == (QueueState([], Some(batch), []), Activated(batch))
    ensures batch.items == [item] && batch.id != "x"
  {
    PlansIffAccepts([item], "h");
    batch := PlannedBatch([item], "h", "batch-" + "2").(status := Active, startedAt := "3", items := [item]);
    assert batch.id[0] == 'b';
  }

  lemma AdmitAgain(q: QueueState)
    requires q.pending == [] && (q.active.Some? ==> q.active.value.id != "x")
    ensures Execute(q, ADMIT_X.request, ADMIT_X.reading).0
      == q.(pending := [NewItem(ADMIT_X.request, ADMIT_X.reading)])
  {
  }

  lemma {:induction false} StateAppend(log: seq<Commit>, c: Commit)
    ensures StateAfter(log + [c]) == Execute(StateAfter(log), c.request, c.reading).0
  {
    ReplayAppend(log, c);
  }

  lemma {:induction false} OneActive(item: Item) returns (batch: Batch)
    requires item == NewItem(ADMIT_X.request, ADMIT_X.reading)
    ensures StateAfter([] + [ADMIT_X] + [DRAIN_ALL]) == QueueState([], Some(batch), [])
    ensures batch.items == [item] && batch.id != "x"
  {
    StateAppend([], ADMIT_X);
    AdmitAgain(EMPTY_STATE);
    batch := DrainOne(item);
    StateAppend([] + [ADMIT_X], DRAIN_ALL);
  }

  lemma {:induction false} SharesFirst(q: QueueState, item: Item, batch: Batch)
    requires q.pending == [item] && q.active == Some(batch) && batch.items == [item]
    ensures SharesActiveId(q)
  {
    assert q.pending[0].id == q.active.value.items[0].id;
  }

  /** It happens: an id is admitted again while it is active. */
  lemma {:induction false} SameIdActiveAndPending() returns (log: seq<Commit>)
    ensures ValidLog(log) && SharesActiveId(StateAfter(log))
  {
    var item := NewItem(ADMIT_X.request, ADMIT_X.reading);
    var batch := OneActive(item);
    var q := QueueState([], Some(batch), []);
    AdmitAgain(q);
    var two := [] + [ADMIT_X] + [DRAIN_ALL];
    StateAppend(two, ADMIT_X);
    log := two + [ADMIT_X];
    SharesFirst(q.(pending := [item]), item, batch);
  }
}
