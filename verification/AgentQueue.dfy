/**
 The durable queue: pending items, one active batch and a bounded receipt list.
 `Execute` is the queue as one atomic machine; the commands of the program are
 proved against it, and the conservation laws are proved over all its runs.
 */
module AgentQueue {
  import opened Common
  import opened QueueBatch

  datatype QueueState = QueueState(pending: seq<Item>, active: Option<Batch>, receipts: seq<Batch>)

  const EMPTY_STATE := QueueState([], None, [])
  const MAX_RECEIPTS := 100

  datatype Request =
    | Admit(id: string, workItem: string, agent: string, files: seq<string>,
            chunks: seq<(string, Chunk)>, postconditions: seq<(string, string)>, validation: seq<string>)
    | Drain(confirm: bool)
    | Complete(batch: string, status: Status)

  /** What a command reads from outside the queue while it holds the lock. */
  datatype Reading = Reading(head: Option<string>, stamp: string, stamp2: string)

  datatype Blocker =
    | InvalidAdmission | InvalidCompletion | QueueLocked | QueueLockFailed | StateInvalid
    | DuplicateAdmission | HeadUnavailable | ActiveBatch | StaleBaseHead | QueueConflict
    | BatchMismatch | StateWriteFailed

  datatype Response =
    | Blocked(blocker: Blocker)
    | Admitted(item: Item)
    | NothingPending
    | Previewed(batch: Batch)
    | Activated(batch: Batch)
    | Completed(receipt: Batch)

  predicate Mutates(r: Response) {
    r.Admitted? || r.Activated? || r.Completed?
  }

  // ---------------------------------------------------------------- request checks

  predicate IsSafeChar(c: char) {
    'a' <= c <= 'z' || 'A' <= c <= 'Z' || '0' <= c <= '9' || c == '.' || c == '_' || c == '-'
  }

  predicate IsSafeId(id: string) {
    id != [] && forall i :: 0 <= i < |id| ==> IsSafeChar(id[i])
  }

  /** Chunk and postcondition selectors must parse and name a declared file. */
  predicate ValidAdmission(r: Request)
    requires r.Admit?
  {
    && r.workItem != [] && r.agent != [] && IsSafeId(r.id) && r.files != []
    && (forall i :: 0 <= i < |r.chunks| ==>
      r.chunks[i].0 in r.files && 0 < r.chunks[i].1.start <= r.chunks[i].1.end)
    && (forall i :: 0 <= i < |r.postconditions| ==>
      r.postconditions[i].0 in r.files && r.postconditions[i].1 != [])
  }

  predicate ValidCompletion(r: Request)
    requires r.Complete?
  {
    IsSafeId(r.batch) && (r.status.Succeeded? || r.status.Failed? || r.status.Cancelled?)
  }

  predicate ValidRequest(r: Request) {
    match r
    case Admit(_, _, _, _, _, _, _) => ValidAdmission(r)
    case Drain(_) => true
    case Complete(_, _) => ValidCompletion(r)
  }

  function ChunkMap(chunks: seq<(string, Chunk)>): map<string, seq<Chunk>> {
    if chunks == [] then map[]
    else
      var m, last := ChunkMap(chunks[..|chunks| - 1]), chunks[|chunks| - 1];
      m[last.0 := (if last.0 in m then m[last.0] else []) + [last.1]]
  }

  function PostconditionMap(posts: seq<(string, string)>): map<string, string> {
    if posts == [] then map[]
    else PostconditionMap(posts[..|posts| - 1])[posts[|posts| - 1].0 := posts[|posts| - 1].1]
  }

  function NewItem(r: Request, reading: Reading): Item
    requires r.Admit? && reading.head.Some?
  {
    Item(r.id, reading.head.value, r.workItem, r.agent, r.files,
         ChunkMap(r.chunks), PostconditionMap(r.postconditions), r.validation, reading.stamp)
  }

  // ---------------------------------------------------------------- the atomic queue

  predicate HasPendingId(q: QueueState, id: string) {
    exists i :: 0 <= i < |q.pending| && q.pending[i].id == id
  }

  function AdmitTo(q: QueueState, r: Request, reading: Reading): (QueueState, Response)
    requires r.Admit?
  {
    if HasPendingId(q, r.id) || (q.active.Some? && q.active.value.id == r.id) then (q, Blocked(DuplicateAdmission))
    else if reading.head.None? then (q, Blocked(HeadUnavailable))
    else
      var item := NewItem(r, reading);
      (q.(pending := q.pending + [item]), Admitted(item))
  }

  function DrainFrom(q: QueueState, r: Request, reading: Reading): (QueueState, Response)
    requires r.Drain?
  {
    if q.active.Some? then (q, Blocked(ActiveBatch))
    else if q.pending == [] then (q, NothingPending)
    else match reading.head
      case None => (q, Blocked(HeadUnavailable))
      case Some(head) =>
        match FirstObstacle(q.pending, head, 0, 0)
        case Some(Stale(_)) => (q, Blocked(StaleBaseHead))
        case Some(Conflict(_, _)) => (q, Blocked(QueueConflict))
        case None =>
          var batch := PlannedBatch(q.pending, head, "batch-" + reading.stamp);
          if !r.confirm then (q, Previewed(batch.(status := Preview)))
          else
            var active := batch.(status := Active, startedAt := reading.stamp2, items := q.pending);
            (QueueState([], Some(active), q.receipts), Activated(active))
  }

  function CompleteIn(q: QueueState, r: Request, reading: Reading): (QueueState, Response)
    requires r.Complete?
  {
    if q.active.None? || q.active.value.id != r.batch then (q, Blocked(BatchMismatch))
    else
      var receipt := q.active.value.(status := r.status, completedAt := reading.stamp);
      var receipts := q.receipts + [receipt];
      (QueueState(q.pending, None, if |receipts| > MAX_RECEIPTS then receipts[1..] else receipts), Completed(receipt))
  }

  /** One command, executed at one instant. */
  function Execute(q: QueueState, r: Request, reading: Reading): (QueueState, Response) {
    match r
    case Admit(_, _, _, _, _, _, _) => AdmitTo(q, r, reading)
    case Drain(_) => DrainFrom(q, r, reading)
    case Complete(_, _) => CompleteIn(q, r, reading)
  }

  // ---------------------------------------------------------------- the commands' loops

  method CollectChunks(chunks: seq<(string, Chunk)>) returns (m: map<string, seq<Chunk>>)
    ensures m == ChunkMap(chunks)
  {
    m := map[];
    for i := 0 to |chunks|
      invariant m == ChunkMap(chunks[..i])
    {
      assert chunks[..i + 1][..i] == chunks[..i];
      var (path, chunk) := chunks[i];
      m := m[path := (if path in m then m[path] else []) + [chunk]];
    }
    assert chunks[..|chunks|] == chunks;
  }

  method CollectPostconditions(posts: seq<(string, string)>) returns (m: map<string, string>)
    ensures m == PostconditionMap(posts)
  {
    m := map[];
    for i := 0 to |posts|
      invariant m == PostconditionMap(posts[..i])
    {
      assert posts[..i + 1][..i] == posts[..i];
      m := m[posts[i].0 := posts[i].1];
    }
    assert posts[..|posts|] == posts;
  }

  method FindPending(q: QueueState, id: string) returns (found: bool)
    ensures found == HasPendingId(q, id)
  {
    for i := 0 to |q.pending|
      invariant forall k :: 0 <= k < i ==> q.pending[k].id != id
    {
      if q.pending[i].id == id {
        return true;
      }
    }
    return false;
  }

  /** What a command answers and what the state file holds afterwards. */
  function Answer(file: Option<QueueState>, locked: bool, readable: bool, writable: bool,
                  r: Request, reading: Reading): (Response, Option<QueueState>)
  {
    var executed := Execute(if file.None? then EMPTY_STATE else file.value, r, reading);
    if !ValidRequest(r) then (Blocked(if r.Complete? then InvalidCompletion else InvalidAdmission), file)
    else if locked then (Blocked(QueueLocked), file)
    else if file.Some? && !readable then (Blocked(StateInvalid), file)
    else if !Mutates(executed.1) then (executed.1, file)
    else if !writable then (Blocked(StateWriteFailed), file)
    else (executed.1, Some(executed.0))
  }

  /**
   The queue directory of one repository: the state file, the lock directory, and
   how Git and the file system will answer while one command runs.
   */
  class QueueDirectory {
    var stateFile: Option<QueueState>
    var locked: bool
    var head: Option<string>
    var readable: bool
    var writable: bool

    constructor (head: Option<string>, readable: bool, writable: bool)
      ensures stateFile == None && !locked
    {
      stateFile, locked := None, false;
      this.head, this.readable, this.writable := head, readable, writable;
    }

    /** mkdir: fails when the directory exists. */
    method AcquireQueueLock() returns (owned: bool)
      modifies this`locked
      ensures owned == !old(locked) && locked
    {
      owned := !locked;
      locked := true;
    }

    method LoadState() returns (state: Option<QueueState>)
      ensures state == if stateFile.None? then Some(EMPTY_STATE) else if readable then stateFile else None
    {
      if stateFile == None {
        return Some(EMPTY_STATE);
      }
      return if readable then stateFile else None;
    }

    /** Writes a temporary file and renames it over the state file. */
    method SaveState(state: QueueState) returns (saved: bool)
      modifies this`stateFile
      ensures saved == writable
      ensures stateFile == if saved then Some(state) else old(stateFile)
    {
      saved := writable;
      if saved {
        stateFile := Some(state);
      }
    }

    method RunAdmit(r: Request, stamp: string) returns (response: Response)
      requires r.Admit?
      modifies this`stateFile, this`locked
      ensures (response, stateFile) ==
        Answer(old(stateFile), old(locked), readable, writable, r, Reading(head, stamp, ""))
      ensures locked == old(locked)
    {
      if !ValidAdmission(r) {
        return Blocked(InvalidAdmission);
      }
      var chunks := CollectChunks(r.chunks);
      var postconditions := CollectPostconditions(r.postconditions);
      var owned := AcquireQueueLock();
      if !owned {
        return Blocked(QueueLocked);
      }
      var loaded := LoadState();
      if loaded == None {
        locked := false;
        return Blocked(StateInvalid);
      }
      var state := loaded.value;
      var duplicate := FindPending(state, r.id);
      if duplicate || (state.active.Some? && state.active.value.id == r.id) {
        locked := false;
        return Blocked(DuplicateAdmission);
      }
      if head == None {
        locked := false;
        return Blocked(HeadUnavailable);
      }
      var item := Item(r.id, head.value, r.workItem, r.agent, r.files, chunks, postconditions, r.validation, stamp);
      state := state.(pending := state.pending + [item]);
      var saved := SaveState(state);
      locked := false;
      return if saved then Admitted(item) else Blocked(StateWriteFailed);
    }

    method RunDrain(confirm: bool, stamp: string, stamp2: string) returns (response: Response)
      modifies this`stateFile, this`locked
      ensures (response, stateFile) ==
        Answer(old(stateFile), old(locked), readable, writable, Drain(confirm), Reading(head, stamp, stamp2))
      ensures locked == old(locked)
    {
      var owned := AcquireQueueLock();
      if !owned {
        return Blocked(QueueLocked);
      }
      var loaded := LoadState();
      if loaded == None {
        locked := false;
        return Blocked(StateInvalid);
      }
      var state := loaded.value;
      if state.active != None {
        locked := false;
        return Blocked(ActiveBatch);
      }
      if state.pending == [] {
        locked := false;
        return NothingPending;
      }
      if head == None {
        locked := false;
        return Blocked(HeadUnavailable);
      }
      var obstacle, batch := BuildBatch(state.pending, head.value, "batch-" + stamp);
      if obstacle != None {
        locked := false;
        return Blocked(if obstacle.value.Stale? then StaleBaseHead else QueueConflict);
      }
      if !confirm {
        locked := false;
        return Previewed(batch.(status := Preview));
      }
      batch := batch.(status := Active, startedAt := stamp2, items := state.pending);
      var saved := SaveState(QueueState([], Some(batch), state.receipts));
      locked := false;
      return if saved then Activated(batch) else Blocked(StateWriteFailed);
    }

    method RunComplete(batch: string, status: Status, stamp: string) returns (response: Response)
      modifies this`stateFile, this`locked
      ensures (response, stateFile) ==
        Answer(old(stateFile), old(locked), readable, writable, Complete(batch, status), Reading(head, stamp, ""))
      ensures locked == old(locked)
    {
      if !ValidCompletion(Complete(batch, status)) {
        return Blocked(InvalidCompletion);
      }
      var owned := AcquireQueueLock();
      if !owned {
        return Blocked(QueueLocked);
      }
      var loaded := LoadState();
      if loaded == None {
        locked := false;
        return Blocked(StateInvalid);
      }
      var state := loaded.value;
      if state.active == None || state.active.value.id != batch {
        locked := false;
        return Blocked(BatchMismatch);
      }
      var receipt := state.active.value.(status := status, completedAt := stamp);
      var receipts := state.receipts + [receipt];
      if |receipts| > MAX_RECEIPTS {
        receipts := receipts[1..];
      }
      var saved := SaveState(QueueState(state.pending, None, receipts));
      locked := false;
      return if saved then Completed(receipt) else Blocked(StateWriteFailed);
    }
  }
}
