/**
 The queue as many processes run it: every command is a sequence of steps on shared
 files, interleaved with the steps of all other commands, and any process may crash
 between two steps. The committed states are shown to be a run of the atomic queue.
 */
module QueueProtocol {
  import opened Common
  import opened QueueBatch
  import opened AgentQueue
  import opened QueueInvariants

  /** The atomic machine the commands implement: what a command does to the state, and which requests it takes. */
  datatype Machine = Machine(execute: (QueueState, Commit) -> (QueueState, Response), valid: Request -> bool)

  datatype Job = Command(request: Request) | ShowStatus

  datatype Phase =
    | Start
    | Refused(response: Response)
    | Locked
    | Loaded(snapshot: QueueState)
    | Decided(next: QueueState, response: Response, reading: Reading)
    | TempOpen(name: string, next: QueueState, response: Response, reading: Reading)
    | TempReady(name: string, next: QueueState, response: Response, reading: Reading)
    | Answering(response: Response)
    | Printed(response: Response)
    | Done
    | StatusOpening
    | StatusShown(shown: QueueState)
    | Crashed

  datatype Process = Process(job: Job, phase: Phase)

  datatype Temp = Partial | Full(state: QueueState)

  /** A rename that took effect: whose it was, the state file before and after it, and the answer it earns. */
  datatype Entry = Entry(proc: nat, commit: Commit, before: QueueState, after: QueueState, response: Response)

  /** Shared files and processes; `history` and `acks` record what happened. */
  datatype World = World(
    file: Option<QueueState>, lock: Option<nat>, temps: map<string, Temp>, head: Option<string>,
    procs: seq<Process>, history: seq<Entry>, acks: map<nat, Response>)

  datatype Action =
    | Reject(p: nat) | TryLock(p: nat) | LockFails(p: nat) | Tell(p: nat)
    | Load(p: nat) | LoadFails(p: nat)
    | Decide(p: nat, stamp: string, stamp2: string)
    | OpenTemp(p: nat, name: string) | OpenTempFails(p: nat)
    | Flush(p: nat) | FlushFails(p: nat)
    | Rename(p: nat) | RenameFails(p: nat)
    | Print(p: nat) | Unlock(p: nat) | UnlockFails(p: nat)
    | CheckStatus(p: nat) | ReadStatus(p: nat) | ReadStatusFails(p: nat)
    | Crash(p: nat)
    | MoveHead(head: Option<string>)

  // ---------------------------------------------------------------- steps

  function Goto(w: World, p: nat, phase: Phase): World
    requires p < |w.procs|
  {
    w.(procs := w.procs[p := w.procs[p].(phase := phase)])
  }

  predicate At(w: World, p: nat) {
    p < |w.procs|
  }

  predicate Enabled(m: Machine, w: World, a: Action) {
    match a
    case Reject(p) => At(w, p) && w.procs[p].phase == Start && w.procs[p].job.Command? && !m.valid(w.procs[p].job.request)
    case TryLock(p) => At(w, p) && w.procs[p].phase == Start && w.procs[p].job.Command? && m.valid(w.procs[p].job.request)
    case LockFails(p) => At(w, p) && w.procs[p].phase == Start && w.procs[p].job.Command? && m.valid(w.procs[p].job.request)
    case Tell(p) => At(w, p) && w.procs[p].phase.Refused?
    case Load(p) => At(w, p) && w.procs[p].phase == Locked
    case LoadFails(p) => At(w, p) && w.procs[p].phase == Locked
    case Decide(p, _, _) => At(w, p) && w.procs[p].phase.Loaded? && w.procs[p].job.Command?
    case OpenTemp(p, _) => At(w, p) && w.procs[p].phase.Decided?
    case OpenTempFails(p) => At(w, p) && w.procs[p].phase.Decided?
    case Flush(p) => At(w, p) && w.procs[p].phase.TempOpen?
    case FlushFails(p) => At(w, p) && w.procs[p].phase.TempOpen?
    case Rename(p) => At(w, p) && w.procs[p].phase.TempReady? && w.procs[p].job.Command?
      && w.procs[p].phase.name in w.temps && w.temps[w.procs[p].phase.name].Full?
    case RenameFails(p) => At(w, p) && w.procs[p].phase.TempReady?
    case Print(p) => At(w, p) && w.procs[p].phase.Answering?
    case Unlock(p) => At(w, p) && w.procs[p].phase.Printed?
    case UnlockFails(p) => At(w, p) && w.procs[p].phase.Printed?
    case CheckStatus(p) => At(w, p) && w.procs[p].phase == Start && w.procs[p].job.ShowStatus?
    case ReadStatus(p) => At(w, p) && w.procs[p].phase == StatusOpening && w.file.Some?
    case ReadStatusFails(p) => At(w, p) && w.procs[p].phase == StatusOpening
    case Crash(p) => At(w, p)
    case MoveHead(_) => true
  }

  /** The answer to a request that fails the checks made before the lock. */
  function Invalid(job: Job): Response
    requires job.Command?
  {
    Blocked(if job.request.Complete? then InvalidCompletion else InvalidAdmission)
  }

  const WRITE_FAILED := Answering(Blocked(StateWriteFailed))

  function Stored(w: World): QueueState {
    if w.file.None? then EMPTY_STATE else w.file.value
  }

  /** The history entry of the rename process `p` is about to make. */
  function Renamed(w: World, p: nat): Entry
    requires p < |w.procs| && w.procs[p].phase.TempReady? && w.procs[p].job.Command?
    requires w.procs[p].phase.name in w.temps && w.temps[w.procs[p].phase.name].Full?
  {
    var d := w.procs[p].phase;
    Entry(p, Commit(w.procs[p].job.request, d.reading), Stored(w), w.temps[d.name].state, d.response)
  }

  function Step(m: Machine, w: World, a: Action): World
    requires Enabled(m, w, a)
  {
    match a
    case Reject(p) => Goto(w, p, Refused(Invalid(w.procs[p].job)))
    case TryLock(p) =>
      if w.lock == None then Goto(w.(lock := Some(p)), p, Locked) else Goto(w, p, Refused(Blocked(QueueLocked)))
    case LockFails(p) => Goto(w, p, Refused(Blocked(QueueLockFailed)))
    case Tell(p) => Goto(w.(acks := w.acks[p := w.procs[p].phase.response]), p, Done)
    case Load(p) => Goto(w, p, Loaded(Stored(w)))
    case LoadFails(p) => Goto(w, p, Answering(Blocked(StateInvalid)))
    case Decide(p, stamp, stamp2) =>
      var reading := Reading(w.head, stamp, stamp2);
      var (next, response) := m.execute(w.procs[p].phase.snapshot, Commit(w.procs[p].job.request, reading));
      Goto(w, p, if Mutates(response) then Decided(next, response, reading) else Answering(response))
    case OpenTemp(p, name) =>
      var d := w.procs[p].phase;
      Goto(w.(temps := w.temps[name := Partial]), p, TempOpen(name, d.next, d.response, d.reading))
    case OpenTempFails(p) => Goto(w, p, WRITE_FAILED)
    case Flush(p) =>
      var d := w.procs[p].phase;
      Goto(w.(temps := w.temps[d.name := Full(d.next)]), p, TempReady(d.name, d.next, d.response, d.reading))
    case FlushFails(p) => Goto(w, p, WRITE_FAILED)
    case Rename(p) =>
      var d := w.procs[p].phase;
      Goto(w.(file := Some(w.temps[d.name].state), temps := w.temps - {d.name},
              history := w.history + [Renamed(w, p)]),
           p, Answering(d.response))
    case RenameFails(p) => Goto(w.(temps := w.temps - {w.procs[p].phase.name}), p, WRITE_FAILED)
    case Print(p) =>
      Goto(w.(acks := w.acks[p := w.procs[p].phase.response]), p, Printed(w.procs[p].phase.response))
    case Unlock(p) => Goto(w.(lock := None), p, Done)
    case UnlockFails(p) => Goto(w, p, Done)
    case CheckStatus(p) => Goto(w, p, if w.file.None? then StatusShown(EMPTY_STATE) else StatusOpening)
    case ReadStatus(p) => Goto(w, p, StatusShown(w.file.value))
    case ReadStatusFails(p) => Goto(w, p, Done)
    case Crash(p) => Goto(w, p, Crashed)
    case MoveHead(head) => w.(head := head)
  }

  /** No command has run yet; leftover temporary files may exist. */
  ghost predicate Initial(w: World) {
    && w.file == None && w.lock == None && w.history == [] && w.acks == map[]
    && forall p :: 0 <= p < |w.procs| ==> w.procs[p].phase == Start
  }

  // ---------------------------------------------------------------- the invariant

  /** The state the history ends in. */
  function LastState(history: seq<Entry>): QueueState {
    if history == [] then EMPTY_STATE else history[|history| - 1].after
  }

  /** Entry `k` starts where the one before it ended. */
  predicate Linked(history: seq<Entry>, k: nat)
    requires k < |history|
  {
    history[k].before == if k == 0 then EMPTY_STATE else history[k - 1].after
  }

  /** Entry `k` is a step of the atomic machine from where the one before it ended, with its own answer. */
  ghost predicate Follows(m: Machine, history: seq<Entry>, k: nat)
    requires k < |history|
  {
    && Linked(history, k)
    && m.execute(history[k].before, history[k].commit) == (history[k].after, history[k].response)
    && m.valid(history[k].commit.request) && Mutates(history[k].response)
  }

  /** The history is a run of the atomic machine, one command after the other. */
  ghost predicate AtomicRun(m: Machine, history: seq<Entry>) {
    forall k :: 0 <= k < |history| ==> Follows(m, history, k)
  }

  /** Commit `k` belongs to process `p`. */
  predicate CommitOf(w: World, k: nat, p: nat) {
    k < |w.history| && w.history[k].proc == p
  }

  ghost predicate NoCommit(w: World, p: nat) {
    forall k :: !CommitOf(w, k, p)
  }

  ghost predicate CommittedWith(w: World, p: nat, response: Response) {
    exists k: nat :: CommitOf(w, k, p) && w.history[k].response == response
  }

  /** What an answer promises: a commit of this command with this answer, or none at all. */
  ghost predicate Answered(w: World, p: nat, response: Response) {
    if Mutates(response) then CommittedWith(w, p, response) else NoCommit(w, p)
  }

  ghost predicate Shown(w: World, s: QueueState) {
    s == EMPTY_STATE || exists k :: 0 <= k < |w.history| && w.history[k].after == s
  }

  predicate Holding(phase: Phase) {
    phase.Locked? || phase.Loaded? || phase.Decided? || phase.TempOpen? || phase.TempReady?
    || phase.Answering? || phase.Printed?
  }

  /** A command in one of these phases has not answered yet. */
  predicate Undecided(phase: Phase) {
    phase.Start? || phase.Locked? || phase.Loaded? || phase.Decided? || phase.TempOpen? || phase.TempReady?
  }

  /** A command that may still commit. */
  predicate Taken(m: Machine, job: Job) {
    job.Command? && m.valid(job.request)
  }

  ghost predicate DecisionOk(m: Machine, now: QueueState, job: Job, next: QueueState, response: Response, reading: Reading) {
    Taken(m, job) && Mutates(response) && m.execute(now, Commit(job.request, reading)) == (next, response)
  }

  /** What the process knows, given the committed state `now` and the temporary files. */
  ghost predicate KnowledgeOk(m: Machine, now: QueueState, temps: map<string, Temp>, job: Job, phase: Phase) {
    match phase
    case Locked => Taken(m, job)
    case Loaded(s) => s == now && Taken(m, job)
    case Decided(next, response, reading) => DecisionOk(m, now, job, next, response, reading)
    case TempOpen(_, next, response, reading) => DecisionOk(m, now, job, next, response, reading)
    case TempReady(name, next, response, reading) =>
      DecisionOk(m, now, job, next, response, reading) && (name in temps ==> temps[name] == Full(next))
    case _ => true
  }

  /** What the history says about the process. */
  ghost predicate RecordOk(w: World, p: nat, phase: Phase) {
    && (Undecided(phase) ==> NoCommit(w, p))
    && (phase.Refused? ==> !Mutates(phase.response) && NoCommit(w, p))
    && (phase.Answering? ==> Answered(w, p, phase.response))
    && (phase.Printed? ==> Answered(w, p, phase.response))
    && (phase.StatusShown? ==> Shown(w, phase.shown))
  }

  ghost predicate ProcessOk(m: Machine, w: World, p: nat)
    requires p < |w.procs|
  {
    var phase := w.procs[p].phase;
    && (Holding(phase) ==> w.lock == Some(p))
    && KnowledgeOk(m, Stored(w), w.temps, w.procs[p].job, phase)
    && RecordOk(w, p, phase)
  }

  ghost predicate HistoryOk(m: Machine, w: World) {
    && w.file == (if w.history == [] then None else Some(LastState(w.history)))
    && AtomicRun(m, w.history)
    && (forall p, j, k :: CommitOf(w, j, p) && CommitOf(w, k, p) ==> j == k)
  }

  ghost predicate AcksOk(w: World) {
    forall p :: p in w.acks ==>
      p < |w.procs| && Answered(w, p, w.acks[p]) && !Undecided(w.procs[p].phase)
  }

  ghost predicate Consistent(m: Machine, w: World) {
    HistoryOk(m, w) && AcksOk(w) && forall p :: 0 <= p < |w.procs| ==> ProcessOk(m, w, p)
  }

  // ---------------------------------------------------------------- steps that leave the history alone

  /** `after` differs from `w` by a step of process `p` that left the history alone. */
  ghost predicate LocalStep(w: World, after: World, p: nat) {
    && p < |w.procs| && |after.procs| == |w.procs|
    && after.history == w.history && after.file == w.file && after.acks == w.acks
    && after.procs == w.procs[p := w.procs[p].(phase := after.procs[p].phase)]
    && (w.lock != Some(p) ==> after.temps == w.temps && (w.lock.Some? ==> after.lock == w.lock))
  }

  lemma SameHistory(w: World, after: World, p: nat, phase: Phase)
    requires after.history == w.history
    ensures RecordOk(after, p, phase) <==> RecordOk(w, p, phase)
    ensures forall r :: Answered(after, p, r) <==> Answered(w, p, r)
  {
    forall k ensures CommitOf(after, k, p) <==> CommitOf(w, k, p) {
    }
  }

  lemma LocalStepKeeps(m: Machine, w: World, after: World, p: nat)
    requires Consistent(m, w) && LocalStep(w, after, p)
    requires ProcessOk(m, after, p) && (Undecided(after.procs[p].phase) ==> Undecided(w.procs[p].phase))
    ensures Consistent(m, after)
  {
    forall q, j: nat ensures CommitOf(after, j, q) <==> CommitOf(w, j, q) {
    }
    forall q | 0 <= q < |w.procs| ensures ProcessOk(m, after, q) {
      assert ProcessOk(m, w, q);
      SameHistory(w, after, q, after.procs[q].phase);
    }
    forall q | q in w.acks ensures Answered(after, q, w.acks[q]) {
      SameHistory(w, after, q, Done);
    }
  }

  lemma LeaveKeeps(m: Machine, w: World, a: Action)
    requires Consistent(m, w) && Enabled(m, w, a) && (a.Reject? || a.LockFails? || a.Crash?)
    ensures Consistent(m, Step(m, w, a))
  {
    var after := Step(m, w, a);
    assert ProcessOk(m, w, a.p);
    SameHistory(w, after, a.p, after.procs[a.p].phase);
    LocalStepKeeps(m, w, after, a.p);
  }

  /** The lock and loading. */
  lemma EarlyStepKeeps(m: Machine, w: World, a: Action)
    requires Consistent(m, w) && Enabled(m, w, a) && (a.TryLock? || a.Load? || a.LoadFails?)
    ensures Consistent(m, Step(m, w, a))
  {
    var after := Step(m, w, a);
    assert ProcessOk(m, w, a.p);
    SameHistory(w, after, a.p, after.procs[a.p].phase);
    LocalStepKeeps(m, w, after, a.p);
  }

  lemma DecideKeeps(m: Machine, w: World, a: Action)
    requires Consistent(m, w) && Enabled(m, w, a) && a.Decide?
    ensures Consistent(m, Step(m, w, a))
  {
    var after := Step(m, w, a);
    assert ProcessOk(m, w, a.p);
    SameHistory(w, after, a.p, after.procs[a.p].phase);
    LocalStepKeeps(m, w, after, a.p);
  }

  /** Writing the temporary file. */
  lemma TempStepKeeps(m: Machine, w: World, a: Action)
    requires Consistent(m, w) && Enabled(m, w, a)
    requires a.OpenTemp? || a.OpenTempFails? || a.Flush? || a.FlushFails? || a.RenameFails?
    ensures Consistent(m, Step(m, w, a))
  {
    var after := Step(m, w, a);
    assert ProcessOk(m, w, a.p);
    SameHistory(w, after, a.p, after.procs[a.p].phase);
    LocalStepKeeps(m, w, after, a.p);
  }

  lemma UnlockKeeps(m: Machine, w: World, a: Action)
    requires Consistent(m, w) && Enabled(m, w, a) && (a.Unlock? || a.UnlockFails?)
    ensures Consistent(m, Step(m, w, a))
  {
    var after := Step(m, w, a);
    assert ProcessOk(m, w, a.p);
    SameHistory(w, after, a.p, after.procs[a.p].phase);
    LocalStepKeeps(m, w, after, a.p);
  }

  lemma StatusKeeps(m: Machine, w: World, a: Action)
    requires Consistent(m, w) && Enabled(m, w, a) && (a.CheckStatus? || a.ReadStatus? || a.ReadStatusFails?)
    ensures Consistent(m, Step(m, w, a))
  {
    var after := Step(m, w, a);
    assert ProcessOk(m, w, a.p);
    assert Shown(w, Stored(w));
    SameHistory(w, after, a.p, after.procs[a.p].phase);
    LocalStepKeeps(m, w, after, a.p);
  }

  lemma HeadKeeps(m: Machine, w: World, head: Option<string>)
    requires Consistent(m, w)
    ensures Consistent(m, w.(head := head))
  {
    var after := w.(head := head);
    forall q, j: nat ensures CommitOf(after, j, q) <==> CommitOf(w, j, q) {
    }
    forall q | 0 <= q < |w.procs| ensures ProcessOk(m, after, q) {
      assert ProcessOk(m, w, q);
      SameHistory(w, after, q, w.procs[q].phase);
    }
    forall q | q in w.acks ensures Answered(after, q, w.acks[q]) {
      SameHistory(w, after, q, Done);
    }
  }

  lemma PrintKeeps(m: Machine, w: World, p: nat)
    requires Consistent(m, w) && Enabled(m, w, Print(p))
    ensures Consistent(m, Step(m, w, Print(p)))
  {
    var response := w.procs[p].phase.response;
    var quiet := Goto(w, p, Printed(response));
    assert ProcessOk(m, w, p);
    SameHistory(w, quiet, p, Printed(response));
    LocalStepKeeps(m, w, quiet, p);
    AckKeeps(m, quiet, p, response);
  }

  /** An answer given without the lock: nothing has been committed for it. */
  lemma TellKeeps(m: Machine, w: World, p: nat)
    requires Consistent(m, w) && Enabled(m, w, Tell(p))
    ensures Consistent(m, Step(m, w, Tell(p)))
  {
    var quiet := Goto(w, p, Done);
    assert ProcessOk(m, w, p);
    SameHistory(w, quiet, p, Done);
    LocalStepKeeps(m, w, quiet, p);
    AckKeeps(m, quiet, p, w.procs[p].phase.response);
  }

  lemma AckKeeps(m: Machine, w: World, p: nat, response: Response)
    requires Consistent(m, w) && p < |w.procs| && Answered(w, p, response) && !Undecided(w.procs[p].phase)
    ensures Consistent(m, w.(acks := w.acks[p := response]))
  {
    var after := w.(acks := w.acks[p := response]);
    assert ProcessOk(m, w, p);
    forall q, j: nat ensures CommitOf(after, j, q) <==> CommitOf(w, j, q) {
    }
    forall q | 0 <= q < |w.procs| ensures ProcessOk(m, after, q) {
      assert ProcessOk(m, w, q);
      SameHistory(w, after, q, w.procs[q].phase);
    }
    forall q | q in after.acks ensures Answered(after, q, after.acks[q]) {
      SameHistory(w, after, q, Done);
    }
  }

  // ---------------------------------------------------------------- the rename

  lemma OthersRecords(w: World, after: World, entry: Entry, q: nat, phase: Phase, r: Response)
    requires after.history == w.history + [entry] && entry.proc != q
    ensures Answered(w, q, r) ==> Answered(after, q, r)
    ensures RecordOk(w, q, phase) ==> RecordOk(after, q, phase)
  {
    forall k ensures CommitOf(after, k, q) <==> CommitOf(w, k, q) {
    }
    forall x ensures CommittedWith(w, q, x) ==> CommittedWith(after, q, x) {
      if CommittedWith(w, q, x) {
        var k: nat :| CommitOf(w, k, q) && w.history[k].response == x;
        assert CommitOf(after, k, q) && after.history[k].response == x;
      }
    }
    assert forall k :: 0 <= k < |w.history| ==> after.history[k] == w.history[k];
  }

  lemma RunAppend(m: Machine, history: seq<Entry>, entry: Entry)
    requires AtomicRun(m, history) && entry.before == LastState(history)
    requires m.execute(entry.before, entry.commit) == (entry.after, entry.response)
    requires m.valid(entry.commit.request) && Mutates(entry.response)
    ensures AtomicRun(m, history + [entry])
  {
    var longer := history + [entry];
    forall k | 0 <= k < |longer| ensures Follows(m, longer, k) {
      assert k > 0 ==> longer[k - 1] == history[k - 1];
      if k < |history| {
        assert Follows(m, history, k) && longer[k] == history[k];
      }
    }
  }

  lemma CommitsAppend(w: World, after: World, entry: Entry, k: nat, p: nat)
    requires after.history == w.history + [entry]
    ensures CommitOf(after, k, p) <==> CommitOf(w, k, p) || (k == |w.history| && p == entry.proc)
  {
  }

  lemma RenamedHistoryOk(m: Machine, w: World, after: World, entry: Entry)
    requires HistoryOk(m, w) && NoCommit(w, entry.proc) && Mutates(entry.response) && m.valid(entry.commit.request)
    requires m.execute(Stored(w), entry.commit) == (entry.after, entry.response) && entry.before == Stored(w)
    requires after.history == w.history + [entry] && after.file == Some(entry.after)
    ensures HistoryOk(m, after) && Answered(after, entry.proc, entry.response)
  {
    RunAppend(m, w.history, entry);
    assert CommitOf(after, |w.history|, entry.proc);
    forall p, j, k | CommitOf(after, j, p) && CommitOf(after, k, p) ensures j == k {
      CommitsAppend(w, after, entry, j, p);
      CommitsAppend(w, after, entry, k, p);
    }
  }

  /** The rename is the instant at which a command takes effect. */
  lemma RenameKeeps(m: Machine, w: World, p: nat)
    requires Consistent(m, w) && Enabled(m, w, Rename(p))
    ensures Consistent(m, Step(m, w, Rename(p)))
  {
    var after := Step(m, w, Rename(p));
    var entry := Renamed(w, p);
    assert ProcessOk(m, w, p);
    RenamedHistoryOk(m, w, after, entry);
    forall q | 0 <= q < |w.procs| ensures ProcessOk(m, after, q) {
      assert ProcessOk(m, w, q);
      if q != p {
        OthersRecords(w, after, entry, q, w.procs[q].phase, entry.response);
      }
    }
    forall q | q in after.acks ensures Answered(after, q, after.acks[q]) && q < |w.procs| && q != p {
      OthersRecords(w, after, entry, q, Done, w.acks[q]);
    }
  }

  /** Every step of every process keeps the invariant. */
  lemma StepKeeps(m: Machine, w: World, a: Action)
    requires Consistent(m, w) && Enabled(m, w, a)
    ensures Consistent(m, Step(m, w, a))
  {
    if a.Rename? {
      RenameKeeps(m, w, a.p);
    } else if a.Print? {
      PrintKeeps(m, w, a.p);
    } else if a.Tell? {
      TellKeeps(m, w, a.p);
    } else if a.MoveHead? {
      HeadKeeps(m, w, a.head);
    } else if a.Decide? {
      DecideKeeps(m, w, a);
    } else if a.Unlock? || a.UnlockFails? {
      UnlockKeeps(m, w, a);
    } else if a.CheckStatus? || a.ReadStatus? || a.ReadStatusFails? {
      StatusKeeps(m, w, a);
    } else if a.OpenTemp? || a.OpenTempFails? || a.Flush? || a.FlushFails? || a.RenameFails? {
      TempStepKeeps(m, w, a);
    } else if a.Reject? || a.LockFails? || a.Crash? {
      LeaveKeeps(m, w, a);
    } else {
      EarlyStepKeeps(m, w, a);
    }
  }
}
