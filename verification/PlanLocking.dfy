/**
 Many plan runs on one plan file: reserve the bytes, take an execution lock,
 revalidate, clear the stamp, run the stages, stamp, and undo on failure. A rewrite
 of the file is itself many steps: take the file's advisory lock and compare, write
 piece by piece, then confirm, roll back or give up. Steps of all runs interleave, and
 a thread may die between any two of them.
 */
module PlanLocking {
  import opened Common
  import opened PosixFile
  import opened PlanPayload

  datatype Phase =
    | Idle
    | Reserved | Locked | Admitted
    | Clearing | Cleared | UndoingClear
    | Executing
    | Stamping | Stamped | UndoingStamp | Kept
    | Leaving | Gone | Finished
    | Dead | DeadStamped

  /**
   A run: its thread, the workspace root it was started from, the timestamp it will
   use, the root whose lock it has got, the bytes it reserved and the ones it writes.
   */
  datatype Run = Run(thread: nat, root: nat, stamp: string, phase: Phase, held: nat,
                     reserved: Bytes, execution: Bytes, stamped: Bytes)

  /** An execution lock: the thread that owns it and how many runs of that thread share it. */
  datatype Held = Held(thread: nat, tokens: nat)

  /**
   `locks` has the execution locks that are taken; every workspace root has its own
   lock for the plan file. `source` is the run that has the plan file itself locked for
   a rewrite; `torn` records that some rewrite ended between its two contents.
   */
  datatype World = World(content: Bytes, locks: map<nat, Held>, source: Option<nat>, torn: bool, runs: seq<Run>)

  /** `back` writes towards the expected bytes again, as a rollback does. */
  datatype Action =
    | Reserve(i: nat) | Acquire(i: nat, at: nat) | Busy(i: nat) | Revalidate(i: nat) | RevalidateFails(i: nat)
    | SkipClear(i: nat) | AuditClear(i: nat) | RunStage(i: nat) | Keep(i: nat)
    | Fail(i: nat)
    | Begin(i: nat) | WritePart(i: nat, count: nat, back: bool) | WriteAll(i: nat, back: bool)
    | Confirm(i: nat) | GiveUp(i: nat)
    | Release(i: nat)

  /** A rewrite of the plan file is under way. */
  predicate Writes(p: Phase) {
    p.Clearing? || p.UndoingClear? || p.Stamping? || p.UndoingStamp?
  }

  /** The run has been admitted and has not decided to leave. */
  predicate Working(p: Phase) {
    p.Admitted? || p.Cleared? || p.Executing? || p.Stamped? || Writes(p)
  }

  predicate Holds(p: Phase) {
    p.Locked? || Working(p) || p.Kept? || p.Leaving?
  }

  /** The run has put its stamp into the source and not begun to take it back. */
  predicate HasStamped(p: Phase) {
    p.Stamped? || p.Kept? || p.Finished? || p.DeadStamped?
  }

  predicate In(w: World, i: nat, phase: Phase) {
    i < |w.runs| && w.runs[i].phase == phase
  }

  predicate Has(locks: map<nat, Held>, thread: nat) {
    exists h :: h in locks && locks[h].thread == thread
  }

  /**
   A thread that has a lock for the plan file shares it, whatever root it belongs to;
   otherwise the lock of the run's own root must be free.
   */
  predicate CanTake(locks: map<nat, Held>, r: Run, at: nat) {
    if Has(locks, r.thread) then at in locks && locks[at].thread == r.thread else at == r.root && at !in locks
  }

  // ---------------------------------------------------------------- rewriting the plan file

  /** The run as it starts its next rewrite, if it has one to do. */
  function Prepared(codec: Codec, r: Run): Option<Run> {
    match r.phase
    case Admitted =>
      var cleared := ExecutedAtPayload(codec, r.reserved, "");
      if cleared.Some? && cleared.value != r.reserved then Some(r.(phase := Clearing, execution := cleared.value)) else None
    case Cleared => if r.execution != r.reserved then Some(r.(phase := UndoingClear)) else None
    case Executing =>
      var stamped := ExecutedAtPayload(codec, r.execution, r.stamp);
      if stamped.Some? then Some(r.(phase := Stamping, stamped := stamped.value)) else None
    case Stamped => Some(r.(phase := UndoingStamp))
    case _ => None
  }

  /** The bytes a rewrite under way compared with. */
  function Expected(r: Run): Bytes {
    if r.phase.Clearing? then r.reserved else if r.phase.UndoingStamp? then r.stamped else r.execution
  }

  function Replacement(r: Run): Bytes {
    if r.phase.UndoingClear? then r.reserved else if r.phase.Stamping? then r.stamped else r.execution
  }

  function Target(r: Run, back: bool): Bytes {
    if back then Expected(r) else Replacement(r)
  }

  /** Where a rewrite leads that read its replacement back. */
  function Confirmed(p: Phase): Phase {
    if p.Clearing? then Cleared else if p.Stamping? then Stamped else Leaving
  }

  /** Where a rewrite leads that was rolled back, or could not be, or could not be confirmed. */
  function GivenUp(content: Bytes, r: Run): Phase {
    if (r.phase.Stamping? || r.phase.UndoingStamp?) && content == r.stamped then Kept else Leaving
  }

  predicate Tears(content: Bytes, r: Run) {
    content != Expected(r) && content != Replacement(r)
  }

  // ---------------------------------------------------------------- steps

  predicate Enabled(codec: Codec, w: World, a: Action) {
    match a
    case Reserve(i) => In(w, i, Idle)
    case Acquire(i, at) => In(w, i, Reserved) && CanTake(w.locks, w.runs[i], at)
    case Busy(i) => In(w, i, Reserved)
    case Revalidate(i) => In(w, i, Locked)
    case RevalidateFails(i) => In(w, i, Locked)
    case SkipClear(i) => In(w, i, Admitted) && ExecutedAtPayload(codec, w.runs[i].reserved, "") == Some(w.runs[i].reserved)
    case AuditClear(i) => In(w, i, Cleared)
    case RunStage(i) => In(w, i, Executing)
    case Keep(i) => In(w, i, Stamped)
    case Fail(i) => In(w, i, Admitted) || In(w, i, Cleared) || In(w, i, Executing) || In(w, i, Stamped)
    case Begin(i) =>
      i < |w.runs| && w.source == None && Prepared(codec, w.runs[i]).Some?
      && w.content == Expected(Prepared(codec, w.runs[i]).value)
    case WritePart(i, count, back) => i < |w.runs| && Writes(w.runs[i].phase) && count <= |Target(w.runs[i], back)|
    case WriteAll(i, _) => i < |w.runs| && Writes(w.runs[i].phase)
    case Confirm(i) => i < |w.runs| && Writes(w.runs[i].phase) && w.content == Replacement(w.runs[i])
    case GiveUp(i) => i < |w.runs| && Writes(w.runs[i].phase)
    case Release(i) => i < |w.runs| && (w.runs[i].phase == Leaving || w.runs[i].phase == Kept) && w.runs[i].held in w.locks
  }

  function Taken(locks: map<nat, Held>, thread: nat, at: nat): map<nat, Held> {
    locks[at := Held(thread, if at in locks then locks[at].tokens + 1 else 1)]
  }

  /** Dropping a token frees the lock only when it was the last one. */
  function Dropped(locks: map<nat, Held>, at: nat): map<nat, Held>
    requires at in locks
  {
    if locks[at].tokens <= 1 then locks - {at} else locks[at := Held(locks[at].thread, locks[at].tokens - 1)]
  }

  function NextPhase(w: World, a: Action): Phase
    requires a.i < |w.runs|
  {
    var r := w.runs[a.i];
    match a
    case Reserve(_) => Reserved
    case Acquire(_, _) => Locked
    case Busy(_) => Gone
    case Revalidate(_) => if w.content == r.reserved then Admitted else Leaving
    case SkipClear(_) => Cleared
    case AuditClear(_) => Executing
    case Keep(_) => Kept
    case Fail(_) => if r.phase.Stamped? then Kept else Leaving
    case Confirm(_) => Confirmed(r.phase)
    case GiveUp(_) => GivenUp(w.content, r)
    case Release(_) => if r.phase.Kept? then Finished else Gone
    case RevalidateFails(_) => Leaving
    case _ => r.phase
  }

  /** The acting run after the step: its new phase, and the bytes it has read or will write. */
  function NextRun(codec: Codec, w: World, a: Action): Run
    requires Enabled(codec, w, a)
  {
    var r := w.runs[a.i];
    if a.Begin? then Prepared(codec, r).value
    else if a.Reserve? then r.(phase := Reserved, reserved := w.content)
    else if a.Acquire? then r.(phase := Locked, held := a.at)
    else if a.SkipClear? then r.(phase := Cleared, execution := r.reserved)
    else r.(phase := NextPhase(w, a))
  }

  /** The plan file after the step. */
  function NextContent(w: World, a: Action): Bytes
    requires a.i < |w.runs|
  {
    match a
    case WritePart(i, count, back) =>
      var target := Target(w.runs[i], back);
      if count <= |target| then Overwritten(w.content, 0, target[..count]) else w.content
    case WriteAll(i, back) => Target(w.runs[i], back)
    case _ => w.content
  }

  function NextLocks(codec: Codec, w: World, a: Action): map<nat, Held>
    requires Enabled(codec, w, a)
  {
    if a.Acquire? then Taken(w.locks, w.runs[a.i].thread, a.at)
    else if a.Release? then Dropped(w.locks, w.runs[a.i].held)
    else w.locks
  }

  function NextSource(w: World, a: Action): Option<nat> {
    if a.Begin? then Some(a.i) else if a.Confirm? || a.GiveUp? then None else w.source
  }

  function Step(codec: Codec, w: World, a: Action): World
    requires Enabled(codec, w, a)
  {
    World(NextContent(w, a), NextLocks(codec, w, a), NextSource(w, a),
          w.torn || (a.GiveUp? && Tears(w.content, w.runs[a.i])), w.runs[a.i := NextRun(codec, w, a)])
  }

  /** A thread dies: a rewrite of its own stops where it is. */
  function Killed(content: Bytes, r: Run, thread: nat): Run {
    if r.thread != thread then r
    else if HasStamped(r.phase) || GivenUp(content, r).Kept? then r.(phase := DeadStamped)
    else r.(phase := Dead)
  }

  predicate Owns(w: World, thread: nat) {
    w.source.Some? && w.source.value < |w.runs| && w.runs[w.source.value].thread == thread
  }

  /** The world after a thread has died, in which whatever it had locked is free. */
  function AfterDeath(w: World, thread: nat): World {
    World(w.content, map h | h in w.locks && w.locks[h].thread != thread :: w.locks[h],
          if Owns(w, thread) then None else w.source,
          w.torn || (Owns(w, thread) && Tears(w.content, w.runs[w.source.value])),
          seq(|w.runs|, i requires 0 <= i < |w.runs| => Killed(w.content, w.runs[i], thread)))
  }

  /** Nothing has been reserved and nothing is locked. */
  ghost predicate Initial(w: World) {
    w.locks == map[] && w.source == None && !w.torn && forall i :: 0 <= i < |w.runs| ==> w.runs[i].phase == Idle
  }

  // ---------------------------------------------------------------- the execution locks and the file's lock

  /** The run is between acquire and release with this lock. */
  predicate HoldsAt(r: Run, at: nat) {
    Holds(r.phase) && r.held == at
  }

  function Holders(runs: seq<Run>, at: nat): nat {
    if runs == [] then 0
    else Holders(runs[..|runs| - 1], at) + (if HoldsAt(runs[|runs| - 1], at) then 1 else 0)
  }

  function Tokens(locks: map<nat, Held>, at: nat): nat {
    if at in locks then locks[at].tokens else 0
  }

  /** Every token is a run of the owning thread, and no thread has two locks. */
  ghost predicate LockOk(w: World) {
    && (forall h :: Holders(w.runs, h) == Tokens(w.locks, h))
    && (forall h :: h in w.locks ==> w.locks[h].tokens > 0)
    && (forall h, g :: h in w.locks && g in w.locks && w.locks[h].thread == w.locks[g].thread ==> h == g)
    && forall i :: 0 <= i < |w.runs| && Holds(w.runs[i].phase) ==>
      w.runs[i].held in w.locks && w.locks[w.runs[i].held].thread == w.runs[i].thread
  }

  /** Exactly the run that has the plan file locked is rewriting it. */
  ghost predicate SourceOk(w: World) {
    && (w.source.Some? ==> w.source.value < |w.runs|)
    && forall i :: 0 <= i < |w.runs| ==> (Writes(w.runs[i].phase) <==> w.source == Some(i))
  }

  lemma {:induction false} HoldersChange(runs: seq<Run>, i: nat, r: Run, at: nat)
    requires i < |runs|
    ensures Holders(runs[i := r], at) + (if HoldsAt(runs[i], at) then 1 else 0)
         == Holders(runs, at) + (if HoldsAt(r, at) then 1 else 0)
  {
    var n := |runs| - 1;
    if i < n {
      assert runs[i := r][..n] == runs[..n][i := r];
      HoldersChange(runs[..n], i, r, at);
    } else {
      assert runs[i := r][..n] == runs[..n];
    }
  }

  lemma {:induction false} NoHolders(runs: seq<Run>, at: nat)
    ensures Holders(runs, at) == 0 <==> forall i :: 0 <= i < |runs| ==> !HoldsAt(runs[i], at)
  {
    if runs != [] {
      NoHolders(runs[..|runs| - 1], at);
      assert forall i :: 0 <= i < |runs| - 1 ==> runs[..|runs| - 1][i] == runs[i];
    }
  }

  lemma {:induction false} SameHolders(a: seq<Run>, b: seq<Run>, at: nat)
    requires |a| == |b| && forall i :: 0 <= i < |a| ==> (HoldsAt(a[i], at) <==> HoldsAt(b[i], at))
    ensures Holders(a, at) == Holders(b, at)
  {
    if a != [] {
      SameHolders(a[..|a| - 1], b[..|b| - 1], at);
    }
  }

  lemma InitialLock(w: World)
    requires Initial(w)
    ensures LockOk(w)
  {
    forall h ensures Holders(w.runs, h) == 0 {
      NoHolders(w.runs, h);
    }
  }

  lemma DeathKeepsLock(w: World, thread: nat)
    requires LockOk(w)
    ensures LockOk(AfterDeath(w, thread))
  {
    var after := AfterDeath(w, thread);
    forall h ensures Holders(after.runs, h) == Tokens(after.locks, h) {
      assert Holders(w.runs, h) == Tokens(w.locks, h);
      if h in w.locks && w.locks[h].thread == thread {
        NoHolders(after.runs, h);
      } else {
        SameHolders(w.runs, after.runs, h);
      }
    }
  }

  lemma AcquireKeepsLock(codec: Codec, w: World, a: Action)
    requires LockOk(w) && Enabled(codec, w, a) && a.Acquire?
    ensures LockOk(Step(codec, w, a))
  {
    var after := Step(codec, w, a);
    forall h ensures Holders(after.runs, h) == Tokens(after.locks, h) {
      assert Holders(w.runs, h) == Tokens(w.locks, h);
      HoldersChange(w.runs, a.i, NextRun(codec, w, a), h);
    }
  }

  lemma ReleaseKeepsLock(codec: Codec, w: World, a: Action)
    requires LockOk(w) && Enabled(codec, w, a) && a.Release?
    ensures LockOk(Step(codec, w, a))
  {
    var after := Step(codec, w, a);
    forall h ensures Holders(after.runs, h) == Tokens(after.locks, h) {
      assert Holders(w.runs, h) == Tokens(w.locks, h);
      HoldersChange(w.runs, a.i, NextRun(codec, w, a), h);
    }
    NoHolders(after.runs, w.runs[a.i].held);
  }

  lemma InnerStepHolds(codec: Codec, w: World, a: Action)
    requires Enabled(codec, w, a) && !a.Acquire? && !a.Release?
    ensures Holds(NextRun(codec, w, a).phase) <==> Holds(w.runs[a.i].phase)
    ensures NextRun(codec, w, a).thread == w.runs[a.i].thread && NextRun(codec, w, a).held == w.runs[a.i].held
    ensures NextLocks(codec, w, a) == w.locks
  {
  }

  lemma InnerStepKeepsLock(codec: Codec, w: World, a: Action)
    requires LockOk(w) && Enabled(codec, w, a) && !a.Acquire? && !a.Release?
    ensures LockOk(Step(codec, w, a))
  {
    var after := Step(codec, w, a);
    InnerStepHolds(codec, w, a);
    forall h ensures Holders(after.runs, h) == Tokens(after.locks, h) {
      assert Holders(w.runs, h) == Tokens(w.locks, h);
      HoldersChange(w.runs, a.i, NextRun(codec, w, a), h);
    }
  }

  lemma StepKeepsLock(codec: Codec, w: World, a: Action)
    requires LockOk(w) && Enabled(codec, w, a)
    ensures LockOk(Step(codec, w, a))
  {
    if a.Acquire? {
      AcquireKeepsLock(codec, w, a);
    } else if a.Release? {
      ReleaseKeepsLock(codec, w, a);
    } else {
      InnerStepKeepsLock(codec, w, a);
    }
  }

  lemma DeathKeepsSource(w: World, thread: nat)
    requires SourceOk(w)
    ensures SourceOk(AfterDeath(w, thread))
  {
  }

  /** A run rewrites from the step that takes the file's lock to the one that drops it. */
  lemma NextWrites(codec: Codec, w: World, a: Action)
    requires Enabled(codec, w, a)
    ensures Writes(NextRun(codec, w, a).phase) <==>
      a.Begin? || (Writes(w.runs[a.i].phase) && !a.Confirm? && !a.GiveUp?)
    ensures a.Begin? ==> w.source == None
    ensures a.Confirm? || a.GiveUp? ==> Writes(w.runs[a.i].phase)
  {
  }

  lemma StepKeepsSource(codec: Codec, w: World, a: Action)
    requires SourceOk(w) && Enabled(codec, w, a)
    ensures SourceOk(Step(codec, w, a))
  {
    NextWrites(codec, w, a);
  }
}
