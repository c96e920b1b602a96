/** Histories of interleaved plan runs: who holds the lock, whose stamp stands, and who may work. */
module PlanRuns {
  import opened Common
  import opened PosixFile
  import opened PlanPayload
  import opened PlanLocking
  import opened PlanStamps

  ghost predicate Dies(w: World, after: World) {
    exists thread :: after == AfterDeath(w, thread)
  }

  /** Some run takes a step, or a thread dies. */
  ghost predicate Moves(codec: Codec, w: World, after: World) {
    Dies(w, after) || exists a :: Enabled(codec, w, a) && after == Step(codec, w, a)
  }

  /** Worlds one after the other. */
  ghost predicate Path(codec: Codec, worlds: seq<World>) {
    worlds != [] && forall i :: 0 < i < |worlds| ==> Moves(codec, worlds[i - 1], worlds[i])
  }

  /** The worlds one after the other, from the first one on. */
  ghost predicate IsHistory(codec: Codec, worlds: seq<World>) {
    Path(codec, worlds) && Initial(worlds[0])
  }

  lemma InitialSane(codec: Codec, w: World, reserved: Bytes)
    requires Initial(w) && FreshStamps(codec, w.runs, reserved)
    ensures Sane(codec, w, reserved)
  {
    InitialLock(w);
  }

  lemma MoveKeepsSane(codec: Codec, w: World, after: World, reserved: Bytes)
    requires Sane(codec, w, reserved) && Moves(codec, w, after)
    ensures Sane(codec, after, reserved)
  {
    if Dies(w, after) {
      var thread :| after == AfterDeath(w, thread);
      DeathKeepsSane(codec, w, thread, reserved);
    } else {
      var a :| Enabled(codec, w, a) && after == Step(codec, w, a);
      StepKeepsSane(codec, w, a, reserved);
    }
  }

  lemma {:induction false} HistoryKeepsSane(codec: Codec, worlds: seq<World>, n: nat, reserved: Bytes)
    requires IsHistory(codec, worlds) && FreshStamps(codec, worlds[0].runs, reserved) && n < |worlds|
    ensures Sane(codec, worlds[n], reserved)
  {
    if n == 0 {
      InitialSane(codec, worlds[0], reserved);
    } else {
      HistoryKeepsSane(codec, worlds, n - 1, reserved);
      assert Moves(codec, worlds[n - 1], worlds[n]);
      MoveKeepsSane(codec, worlds[n - 1], worlds[n], reserved);
    }
  }

  // ---------------------------------------------------------------- the locks

  lemma MoveKeepsLock(codec: Codec, w: World, after: World)
    requires LockOk(w) && SourceOk(w) && Moves(codec, w, after)
    ensures LockOk(after) && SourceOk(after)
  {
    if Dies(w, after) {
      var thread :| after == AfterDeath(w, thread);
      DeathKeepsLock(w, thread);
      DeathKeepsSource(w, thread);
    } else {
      var a :| Enabled(codec, w, a) && after == Step(codec, w, a);
      StepKeepsLock(codec, w, a);
      StepKeepsSource(codec, w, a);
    }
  }

  lemma {:induction false} HistoryKeepsLock(codec: Codec, worlds: seq<World>, n: nat)
    requires IsHistory(codec, worlds) && n < |worlds|
    ensures LockOk(worlds[n]) && SourceOk(worlds[n])
  {
    if n == 0 {
      InitialLock(worlds[0]);
    } else {
      HistoryKeepsLock(codec, worlds, n - 1);
      assert Moves(codec, worlds[n - 1], worlds[n]);
      MoveKeepsLock(codec, worlds[n - 1], worlds[n]);
    }
  }

  predicate BothHold(w: World, i: nat, j: nat) {
    i < |w.runs| && j < |w.runs| && Holds(w.runs[i].phase) && Holds(w.runs[j].phase)
  }

  predicate BothWrite(w: World, i: nat, j: nat) {
    i < |w.runs| && j < |w.runs| && Writes(w.runs[i].phase) && Writes(w.runs[j].phase)
  }

  /**
   At every moment two runs between acquire and release have the same lock exactly when
   they are of one thread, and a lock is free exactly when no run has it; and at most
   one run is rewriting the plan file, whatever the locks.
   */
  lemma OneThreadExecutes(codec: Codec, worlds: seq<World>, n: nat)
    requires IsHistory(codec, worlds) && n < |worlds|
    ensures forall i: nat, j: nat :: BothHold(worlds[n], i, j) ==>
      (worlds[n].runs[i].held == worlds[n].runs[j].held <==> worlds[n].runs[i].thread == worlds[n].runs[j].thread)
    ensures forall h :: h !in worlds[n].locks <==> forall i :: 0 <= i < |worlds[n].runs| ==> !HoldsAt(worlds[n].runs[i], h)
    ensures forall h :: h in worlds[n].locks ==> worlds[n].locks[h].tokens == Holders(worlds[n].runs, h)
    ensures forall i: nat, j: nat :: BothWrite(worlds[n], i, j) ==> i == j
  {
    HistoryKeepsLock(codec, worlds, n);
    var w := worlds[n];
    forall h ensures h !in w.locks <==> forall i :: 0 <= i < |w.runs| ==> !HoldsAt(w.runs[i], h) {
      assert Holders(w.runs, h) == Tokens(w.locks, h);
      NoHolders(w.runs, h);
    }
  }

  /** All runs of a thread are started from one workspace root. */
  ghost predicate OneRootEach(runs: seq<Run>) {
    forall i, j :: 0 <= i < |runs| && 0 <= j < |runs| && runs[i].thread == runs[j].thread ==> runs[i].root == runs[j].root
  }

  /** The run has got a lock at some time. */
  predicate Locks(p: Phase) {
    Holds(p) || p.Finished? || p.DeadStamped?
  }

  /** Every lock that was got is the one of the run's own root. */
  ghost predicate OwnLocks(w: World) {
    && OneRootEach(w.runs)
    && forall i :: 0 <= i < |w.runs| && Locks(w.runs[i].phase) ==> w.runs[i].held == w.runs[i].root
  }

  lemma AcquiresOwn(w: World, i: nat, at: nat)
    requires LockOk(w) && OwnLocks(w) && i < |w.runs| && CanTake(w.locks, w.runs[i], at)
    ensures at == w.runs[i].root
  {
    if at in w.locks {
      assert Holders(w.runs, at) == Tokens(w.locks, at);
      NoHolders(w.runs, at);
      var k :| 0 <= k < |w.runs| && HoldsAt(w.runs[k], at);
    }
  }

  lemma NextLocksPhase(codec: Codec, w: World, a: Action)
    requires Enabled(codec, w, a) && Locks(NextRun(codec, w, a).phase)
    ensures if a.Acquire? then NextRun(codec, w, a).held == a.at else Locks(w.runs[a.i].phase)
  {
  }

  lemma StepKeepsOwnLocks(codec: Codec, w: World, a: Action)
    requires LockOk(w) && OwnLocks(w) && Enabled(codec, w, a)
    ensures OwnLocks(Step(codec, w, a))
  {
    NextKeepsIdentity(codec, w, a);
    var after, next := Step(codec, w, a), NextRun(codec, w, a);
    if Locks(next.phase) {
      NextLocksPhase(codec, w, a);
      if a.Acquire? {
        AcquiresOwn(w, a.i, a.at);
      }
    }
    assert forall i :: 0 <= i < |w.runs| && i != a.i ==> after.runs[i] == w.runs[i];
    assert after.runs[a.i] == next;
  }

  lemma DeathKeepsOwnLocks(w: World, thread: nat)
    requires OwnLocks(w)
    ensures OwnLocks(AfterDeath(w, thread))
  {
    var after := AfterDeath(w, thread);
    forall i: nat | i < |after.runs| && Locks(after.runs[i].phase) ensures after.runs[i].held == after.runs[i].root {
      assert Locks(w.runs[i].phase);
    }
  }

  /** When no thread works for two roots, every run has the lock of its own root. */
  lemma {:induction false} RunsLockOwnRoot(codec: Codec, worlds: seq<World>, n: nat)
    requires IsHistory(codec, worlds) && OneRootEach(worlds[0].runs) && n < |worlds|
    ensures OwnLocks(worlds[n])
  {
    if n > 0 {
      RunsLockOwnRoot(codec, worlds, n - 1);
      HistoryKeepsLock(codec, worlds, n - 1);
      assert Moves(codec, worlds[n - 1], worlds[n]);
      if Dies(worlds[n - 1], worlds[n]) {
        var thread :| worlds[n] == AfterDeath(worlds[n - 1], thread);
        DeathKeepsOwnLocks(worlds[n - 1], thread);
      } else {
        var a :| Enabled(codec, worlds[n - 1], a) && worlds[n] == Step(codec, worlds[n - 1], a);
        StepKeepsOwnLocks(codec, worlds[n - 1], a);
      }
    }
  }

  // ---------------------------------------------------------------- any runs on the file

  /** Step `m` of the history. */
  ghost predicate StepIs(codec: Codec, worlds: seq<World>, m: nat, a: Action) {
    m + 1 < |worlds| && Enabled(codec, worlds[m], a) && worlds[m + 1] == Step(codec, worlds[m], a)
  }

  /** One of the first `n` steps starts to clear a stamp of a run on these bytes. */
  ghost predicate Recleared(codec: Codec, worlds: seq<World>, n: nat, reserved: Bytes) {
    exists m: nat :: m < n && ReclearedAt(codec, worlds, m, reserved)
  }

  ghost predicate ReclearedAt(codec: Codec, worlds: seq<World>, m: nat, reserved: Bytes) {
    exists a :: StepIs(codec, worlds, m, a) && Reclears(codec, worlds[m], a, reserved)
  }

  ghost predicate StandsOk(codec: Codec, w: World, reserved: Bytes) {
    Sane(codec, w, reserved) && StampsStand(w, reserved) && ShutOut(w, reserved)
  }

  lemma StepKeepsStandsOk(codec: Codec, w: World, a: Action, reserved: Bytes)
    requires Faithful(codec) && StandsOk(codec, w, reserved) && Enabled(codec, w, a) && !Reclears(codec, w, a, reserved)
    ensures StandsOk(codec, Step(codec, w, a), reserved)
  {
    StepKeepsSane(codec, w, a, reserved);
    StepKeepsStands(codec, w, a, reserved);
    StepKeepsShutOut(codec, w, a, reserved);
  }

  lemma DeathKeepsStandsOk(codec: Codec, w: World, thread: nat, reserved: Bytes)
    requires StandsOk(codec, w, reserved)
    ensures StandsOk(codec, AfterDeath(w, thread), reserved)
  {
    DeathKeepsSane(codec, w, thread, reserved);
    DeathKeepsStands(codec, w, thread, reserved);
    DeathKeepsShutOut(codec, w, thread, reserved);
  }

  lemma MoveKeepsStandsOk(codec: Codec, worlds: seq<World>, n: nat, reserved: Bytes)
    requires Faithful(codec) && Path(codec, worlds) && n + 1 < |worlds| && !ReclearedAt(codec, worlds, n, reserved)
    requires StandsOk(codec, worlds[n], reserved)
    ensures StandsOk(codec, worlds[n + 1], reserved)
  {
    assert Moves(codec, worlds[n + 1 - 1], worlds[n + 1]);
    if Dies(worlds[n], worlds[n + 1]) {
      var thread :| worlds[n + 1] == AfterDeath(worlds[n], thread);
      DeathKeepsStandsOk(codec, worlds[n], thread, reserved);
    } else {
      var a :| Enabled(codec, worlds[n], a) && worlds[n + 1] == Step(codec, worlds[n], a);
      assert StepIs(codec, worlds, n, a);
      StepKeepsStandsOk(codec, worlds[n], a, reserved);
    }
  }

  lemma {:induction false} StampsStandUnlessRecleared(codec: Codec, worlds: seq<World>, n: nat, reserved: Bytes)
    requires Faithful(codec) && IsHistory(codec, worlds) && FreshStamps(codec, worlds[0].runs, reserved) && n < |worlds|
    requires !Recleared(codec, worlds, n, reserved)
    ensures StandsOk(codec, worlds[n], reserved)
  {
    if n == 0 {
      InitialSane(codec, worlds[0], reserved);
    } else {
      StampsStandUnlessRecleared(codec, worlds, n - 1, reserved);
      MoveKeepsStandsOk(codec, worlds, n - 1, reserved);
    }
  }

  /**
   Two runs that reserved the same bytes have both stamped only if a run that had
   reserved the plan as one of them stamped it went on to clear that stamp.
   */
  lemma BothStampedOnlyIfRecleared(codec: Codec, worlds: seq<World>, n: nat, reserved: Bytes, i: nat, j: nat)
    requires Faithful(codec) && IsHistory(codec, worlds) && FreshStamps(codec, worlds[0].runs, reserved) && n < |worlds|
    requires StampedOn(worlds[n], reserved, i) && StampedOn(worlds[n], reserved, j) && i != j
    ensures Recleared(codec, worlds, n, reserved)
  {
    if !Recleared(codec, worlds, n, reserved) {
      StampsStandUnlessRecleared(codec, worlds, n, reserved);
      AtMostOneStands(codec, worlds[n], reserved, i, j);
    }
  }

  /**
   Unless that happens: once a run has stamped, no run of another thread that reserved
   the same bytes and got the same lock is admitted, clears, executes or stamps; and
   one that waits for its revalidation is turned away, whatever its lock.
   */
  lemma StampShutsOthersOut(codec: Codec, worlds: seq<World>, n: nat, reserved: Bytes, i: nat, j: nat)
    requires Faithful(codec) && IsHistory(codec, worlds) && FreshStamps(codec, worlds[0].runs, reserved) && n < |worlds|
    requires !Recleared(codec, worlds, n, reserved)
    requires StampedOn(worlds[n], reserved, i) && j < |worlds[n].runs| && worlds[n].runs[j].reserved == reserved
    ensures Working(worlds[n].runs[j].phase) && worlds[n].runs[j].thread != worlds[n].runs[i].thread ==>
      worlds[n].runs[j].held != worlds[n].runs[i].held
    ensures worlds[n].runs[j].phase == Locked ==> Step(codec, worlds[n], Revalidate(j)).runs[j].phase == Leaving
  {
    StampsStandUnlessRecleared(codec, worlds, n, reserved);
    if worlds[n].runs[j].phase == Locked {
      RevalidationRefuses(codec, worlds[n], i, j, reserved);
    } else if Working(worlds[n].runs[j].phase) && worlds[n].runs[j].held == worlds[n].runs[i].held {
      assert Meet(worlds[n], reserved, i, j);
    }
  }

  // ---------------------------------------------------------------- runs that reserved the same bytes

  /** A step in which a reservation, if there is one, finds these plan bytes, or a death. */
  ghost predicate MovesOn(codec: Codec, reserved: Bytes, w: World, after: World) {
    Dies(w, after) || exists a :: Enabled(codec, w, a) && after == Step(codec, w, a) && ReservesOnly(w, a, reserved)
  }

  /** A history that starts with these plan bytes and in which every reservation finds them. */
  ghost predicate HistoryOn(codec: Codec, reserved: Bytes, worlds: seq<World>) {
    && worlds != [] && Initial(worlds[0]) && worlds[0].content == reserved
    && FreshStamps(codec, worlds[0].runs, reserved)
    && forall i :: 0 < i < |worlds| ==> MovesOn(codec, reserved, worlds[i - 1], worlds[i])
  }

  /** What holds in every world of such a history. */
  ghost predicate OnOk(codec: Codec, w: World, reserved: Bytes) {
    && Sane(codec, w, reserved) && AllReserved(w, reserved) && StampsStand(w, reserved) && ShutOut(w, reserved)
    && WholeBetween(codec, w, reserved) && (!Carries(codec, reserved, "") ==> ClearedAlone(w))
  }

  lemma StepKeepsOn(codec: Codec, reserved: Bytes, w: World, a: Action)
    requires Faithful(codec) && OnOk(codec, w, reserved) && Enabled(codec, w, a) && ReservesOnly(w, a, reserved)
    ensures OnOk(codec, Step(codec, w, a), reserved)
  {
    NothingReclears(codec, w, a, reserved);
    StepKeepsSane(codec, w, a, reserved);
    StepKeepsReserved(codec, w, a, reserved);
    StepKeepsStands(codec, w, a, reserved);
    StepKeepsShutOut(codec, w, a, reserved);
    StepKeepsWhole(codec, w, a, reserved);
    if !Carries(codec, reserved, "") {
      StepKeepsAlone(codec, w, a, reserved);
    }
  }

  lemma DeathKeepsOn(codec: Codec, reserved: Bytes, w: World, thread: nat)
    requires OnOk(codec, w, reserved)
    ensures OnOk(codec, AfterDeath(w, thread), reserved)
  {
    DeathKeepsSane(codec, w, thread, reserved);
    DeathKeepsReserved(w, thread, reserved);
    DeathKeepsStands(codec, w, thread, reserved);
    DeathKeepsShutOut(codec, w, thread, reserved);
    DeathKeepsWhole(codec, w, thread, reserved);
    if !Carries(codec, reserved, "") {
      DeathKeepsAlone(w, thread);
    }
  }

  lemma MoveKeepsOn(codec: Codec, reserved: Bytes, w: World, after: World)
    requires Faithful(codec) && OnOk(codec, w, reserved) && MovesOn(codec, reserved, w, after)
    ensures OnOk(codec, after, reserved)
  {
    if Dies(w, after) {
      var thread :| after == AfterDeath(w, thread);
      DeathKeepsOn(codec, reserved, w, thread);
    } else {
      var a :| Enabled(codec, w, a) && after == Step(codec, w, a) && ReservesOnly(w, a, reserved);
      StepKeepsOn(codec, reserved, w, a);
    }
  }

  lemma {:induction false} HistoryKeepsOn(codec: Codec, reserved: Bytes, worlds: seq<World>, n: nat)
    requires Faithful(codec) && HistoryOn(codec, reserved, worlds) && n < |worlds|
    ensures OnOk(codec, worlds[n], reserved)
  {
    if n == 0 {
      InitialSane(codec, worlds[0], reserved);
    } else {
      HistoryKeepsOn(codec, reserved, worlds, n - 1);
      MoveKeepsOn(codec, reserved, worlds[n - 1], worlds[n]);
    }
  }

  /**
   Of any number of runs that reserved the same plan bytes, at every moment at most
   one has its stamp in the source. Between rewrites, unless a death or a failed
   rollback has torn the file, the source carries exactly that run's stamp.
   */
  lemma AtMostOneStamp(codec: Codec, reserved: Bytes, worlds: seq<World>, n: nat)
    requires Faithful(codec) && HistoryOn(codec, reserved, worlds) && n < |worlds|
    ensures forall i: nat :: i < |worlds[n].runs| && HasStamped(worlds[n].runs[i].phase) ==>
      worlds[n].content == worlds[n].runs[i].stamped && Carries(codec, worlds[n].content, worlds[n].runs[i].stamp)
    ensures forall i: nat, j: nat :: BothStamped(worlds[n], i, j) ==> i == j
    ensures worlds[n].source == None && !worlds[n].torn ==> forall i: nat :: i < |worlds[n].runs| ==>
      (Carries(codec, worlds[n].content, worlds[n].runs[i].stamp) <==> HasStamped(worlds[n].runs[i].phase))
  {
    HistoryKeepsOn(codec, reserved, worlds, n);
    var w := worlds[n];
    forall i: nat, j: nat | BothStamped(w, i, j)
      ensures i == j && w.content == w.runs[i].stamped && Carries(codec, w.content, w.runs[i].stamp)
    {
      assert StampedOn(w, reserved, i) && StampedOn(w, reserved, j);
      AtMostOneStands(codec, w, reserved, i, j);
    }
    forall i: nat | i < |w.runs| && HasStamped(w.runs[i].phase)
      ensures w.content == w.runs[i].stamped && Carries(codec, w.content, w.runs[i].stamp)
    {
      assert BothStamped(w, i, i);
    }
    if w.source == None && !w.torn {
      forall i: nat | i < |w.runs|
        ensures Carries(codec, w.content, w.runs[i].stamp) <==> HasStamped(w.runs[i].phase)
      {
        WholeShowsStamps(codec, w, reserved, i);
      }
    }
  }

  predicate BothStamped(w: World, i: nat, j: nat) {
    i < |w.runs| && j < |w.runs| && HasStamped(w.runs[i].phase) && HasStamped(w.runs[j].phase)
  }

  /**
   The lock serialises the runs and a later one fails revalidation: once a run has
   stamped, no run of another thread with the same lock is admitted, clears, executes
   or stamps. One that gets a lock later, any lock, is turned away because the bytes
   have moved. And when clearing changes the plan, no other run at all is past its clear.
   */
  lemma OthersNeverExecute(codec: Codec, reserved: Bytes, worlds: seq<World>, n: nat, i: nat, j: nat)
    requires Faithful(codec) && HistoryOn(codec, reserved, worlds) && n < |worlds|
    requires i < |worlds[n].runs| && HasStamped(worlds[n].runs[i].phase)
    requires j < |worlds[n].runs| && j != i
    ensures Working(worlds[n].runs[j].phase) && worlds[n].runs[j].thread != worlds[n].runs[i].thread ==>
      worlds[n].runs[j].held != worlds[n].runs[i].held
    ensures worlds[n].runs[j].phase == Locked ==> Step(codec, worlds[n], Revalidate(j)).runs[j].phase == Leaving
    ensures !Carries(codec, reserved, "") ==> !UsesClear(worlds[n].runs[j].phase)
  {
    HistoryKeepsOn(codec, reserved, worlds, n);
    var w := worlds[n];
    assert StampedOn(w, reserved, i);
    if w.runs[j].phase == Locked {
      RevalidationRefuses(codec, w, i, j, reserved);
    } else if Working(w.runs[j].phase) && w.runs[j].held == w.runs[i].held {
      assert Meet(w, reserved, i, j);
    }
    if !Carries(codec, reserved, "") && UsesClear(w.runs[j].phase) {
      StampedUsesAlone(codec, w, reserved, i, j);
    }
  }

  lemma StampedUsesAlone(codec: Codec, w: World, reserved: Bytes, i: nat, j: nat)
    requires Faithful(codec) && OnOk(codec, w, reserved) && ClearedAlone(w) && StampedOn(w, reserved, i)
    requires j < |w.runs| && j != i
    ensures !UsesClear(w.runs[j].phase)
  {
    OwnStamp(codec, w.runs[i]);
    OwnStamp(codec, w.runs[j]);
    if HasStamped(w.runs[j].phase) {
      assert StampedOn(w, reserved, j);
      AtMostOneStands(codec, w, reserved, i, j);
    }
  }

  lemma OnIsHistory(codec: Codec, reserved: Bytes, worlds: seq<World>)
    requires HistoryOn(codec, reserved, worlds)
    ensures IsHistory(codec, worlds)
  {
    forall i | 0 < i < |worlds| ensures Moves(codec, worlds[i - 1], worlds[i]) {
      assert MovesOn(codec, reserved, worlds[i - 1], worlds[i]);
    }
  }

  /** For runs started from one workspace root, when no thread works for two: a stamp shuts the other threads out. */
  lemma SameRootExcludes(codec: Codec, reserved: Bytes, worlds: seq<World>, n: nat, i: nat, j: nat)
    requires Faithful(codec) && HistoryOn(codec, reserved, worlds) && n < |worlds| && OneRootEach(worlds[0].runs)
    requires i < |worlds[n].runs| && HasStamped(worlds[n].runs[i].phase)
    requires j < |worlds[n].runs| && worlds[n].runs[j].thread != worlds[n].runs[i].thread
    requires worlds[n].runs[j].root == worlds[n].runs[i].root
    ensures !Working(worlds[n].runs[j].phase)
  {
    OnIsHistory(codec, reserved, worlds);
    RunsLockOwnRoot(codec, worlds, n);
    OthersNeverExecute(codec, reserved, worlds, n, i, j);
  }

  predicate Done(w: World, i: nat) {
    In(w, i, Finished) || In(w, i, DeadStamped)
  }

  /** A run that is done takes no step any more. */
  lemma DoneIsIdle(codec: Codec, w: World, a: Action)
    requires Enabled(codec, w, a)
    ensures !Done(w, a.i)
  {
  }

  lemma DoneDies(w: World, thread: nat, i: nat)
    requires Done(w, i)
    ensures Done(AfterDeath(w, thread), i) && AfterDeath(w, thread).runs[i].stamped == w.runs[i].stamped
  {
  }

  /** What is done stays done, with the same stamped bytes. */
  ghost predicate KeepsDone(w: World, after: World) {
    forall i: nat :: Done(w, i) ==> Done(after, i) && after.runs[i].stamped == w.runs[i].stamped
  }

  lemma MoveKeepsDone(codec: Codec, reserved: Bytes, w: World, after: World)
    requires MovesOn(codec, reserved, w, after)
    ensures KeepsDone(w, after)
  {
    forall i: nat | Done(w, i) ensures Done(after, i) && after.runs[i].stamped == w.runs[i].stamped {
      if Dies(w, after) {
        var thread :| after == AfterDeath(w, thread);
        DoneDies(w, thread, i);
      } else {
        var a :| Enabled(codec, w, a) && after == Step(codec, w, a) && ReservesOnly(w, a, reserved);
        DoneIsIdle(codec, w, a);
      }
    }
  }

  lemma {:induction false} DoneFor(worlds: seq<World>, m: nat, n: nat, i: nat)
    requires forall k :: 0 < k < |worlds| ==> KeepsDone(worlds[k - 1], worlds[k])
    requires m <= n < |worlds| && Done(worlds[m], i)
    ensures Done(worlds[n], i) && worlds[n].runs[i].stamped == worlds[m].runs[i].stamped
    decreases n
  {
    if m < n {
      DoneFor(worlds, m, n - 1, i);
      assert KeepsDone(worlds[n - 1], worlds[n]);
    }
  }

  /** Once a run has finished with its stamp in the source, the source never changes again. */
  lemma FinishedStampStays(codec: Codec, reserved: Bytes, worlds: seq<World>, m: nat, n: nat, i: nat)
    requires Faithful(codec) && HistoryOn(codec, reserved, worlds) && m <= n < |worlds| && Done(worlds[m], i)
    ensures worlds[n].content == worlds[m].content && Carries(codec, worlds[n].content, worlds[m].runs[i].stamp)
  {
    forall k | 0 < k < |worlds| ensures KeepsDone(worlds[k - 1], worlds[k]) {
      MoveKeepsDone(codec, reserved, worlds[k - 1], worlds[k]);
    }
    DoneFor(worlds, m, n, i);
    AtMostOneStamp(codec, reserved, worlds, m);
    AtMostOneStamp(codec, reserved, worlds, n);
  }

  /**
   Runs of one thread share a lock, and runs of other roots have another one. When
   clearing changes the plan, still at most one run at a time is past its clear, so no
   two execute stages together.
   */
  lemma ExecutesAlone(codec: Codec, reserved: Bytes, worlds: seq<World>, n: nat, i: nat, j: nat)
    requires Faithful(codec) && HistoryOn(codec, reserved, worlds) && n < |worlds| && !Carries(codec, reserved, "")
    requires i < |worlds[n].runs| && UsesClear(worlds[n].runs[i].phase)
    requires j < |worlds[n].runs| && UsesClear(worlds[n].runs[j].phase)
    ensures i == j
  {
    HistoryKeepsOn(codec, reserved, worlds, n);
  }
}
