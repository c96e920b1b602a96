/**
 What one step of the interleaved plan runs keeps. A stamp stands because every rewrite
 compares under the file's lock; no other thread works meanwhile because whoever stamps
 holds the execution lock and the revalidation refuses a plan that has moved.
 */
module PlanStamps {
  import opened Common
  import opened PosixFile
  import opened PlanPayload
  import opened PlanLocking

  // ---------------------------------------------------------------- what every run knows

  /** The run has begun to put the cleared plan in place. */
  predicate PastClear(p: Phase) {
    p.Clearing? || p.Cleared? || p.UndoingClear? || p.Executing? || p.Stamping? || p.UndoingStamp? || HasStamped(p)
  }

  predicate PastStamping(p: Phase) {
    p.Stamping? || p.UndoingStamp? || HasStamped(p)
  }

  /** The bytes a run works with are the plan it reserved, cleared, and stamped. */
  predicate BytesOk(codec: Codec, r: Run) {
    && (PastClear(r.phase) ==> Some(r.execution) == ExecutedAtPayload(codec, r.reserved, ""))
    && (PastStamping(r.phase) ==> Some(r.stamped) == ExecutedAtPayload(codec, r.execution, r.stamp))
  }

  ghost predicate AllBytesOk(codec: Codec, w: World) {
    forall i :: 0 <= i < |w.runs| ==> BytesOk(codec, w.runs[i])
  }

  lemma DeathKeepsBytes(codec: Codec, w: World, thread: nat)
    requires AllBytesOk(codec, w)
    ensures AllBytesOk(codec, AfterDeath(w, thread))
  {
    var after := AfterDeath(w, thread);
    forall i | 0 <= i < |after.runs| ensures BytesOk(codec, after.runs[i]) {
      assert BytesOk(codec, w.runs[i]);
    }
  }

  lemma NextBytes(codec: Codec, w: World, a: Action)
    requires Enabled(codec, w, a) && BytesOk(codec, w.runs[a.i])
    ensures BytesOk(codec, NextRun(codec, w, a))
  {
  }

  lemma StepKeepsBytes(codec: Codec, w: World, a: Action)
    requires Enabled(codec, w, a) && AllBytesOk(codec, w)
    ensures AllBytesOk(codec, Step(codec, w, a))
  {
    NextBytes(codec, w, a);
  }

  /** Timestamps are fresh: not empty, different for every run, and not yet in the reserved plan. */
  ghost predicate FreshStamps(codec: Codec, runs: seq<Run>, reserved: Bytes) {
    && (forall i :: 0 <= i < |runs| ==> runs[i].stamp != "" && !Carries(codec, reserved, runs[i].stamp))
    && forall i, j :: 0 <= i < j < |runs| ==> runs[i].stamp != runs[j].stamp
  }

  lemma SameStampsFresh(codec: Codec, runs: seq<Run>, after: seq<Run>, reserved: Bytes)
    requires FreshStamps(codec, runs, reserved) && |after| == |runs|
    requires forall i :: 0 <= i < |runs| ==> after[i].stamp == runs[i].stamp
    ensures FreshStamps(codec, after, reserved)
  {
  }

  lemma NextKeepsIdentity(codec: Codec, w: World, a: Action)
    requires Enabled(codec, w, a)
    ensures var r, next := w.runs[a.i], NextRun(codec, w, a);
      next.stamp == r.stamp && next.thread == r.thread && next.root == r.root && (!a.Acquire? ==> next.held == r.held)
    ensures NextRun(codec, w, a).reserved == if a.Reserve? then w.content else w.runs[a.i].reserved
  {
  }

  lemma StepKeepsFresh(codec: Codec, w: World, a: Action, reserved: Bytes)
    requires Enabled(codec, w, a) && FreshStamps(codec, w.runs, reserved)
    ensures FreshStamps(codec, Step(codec, w, a).runs, reserved)
  {
    NextKeepsIdentity(codec, w, a);
    SameStampsFresh(codec, w.runs, Step(codec, w, a).runs, reserved);
  }

  /** A stamped plan carries its own stamp, a cleared plan the empty one. */
  lemma OwnStamp(codec: Codec, r: Run)
    requires Faithful(codec) && BytesOk(codec, r)
    ensures PastClear(r.phase) ==> Carries(codec, r.execution, "")
    ensures PastStamping(r.phase) ==> Carries(codec, r.stamped, r.stamp)
  {
    if PastClear(r.phase) {
      PayloadCarriesStamp(codec, r.reserved, "");
    }
    if PastStamping(r.phase) {
      PayloadCarriesStamp(codec, r.execution, r.stamp);
    }
  }

  // ---------------------------------------------------------------- the stamp stands

  /** Run `i` reserved these bytes and has its stamp in the source. */
  predicate StampedOn(w: World, reserved: Bytes, i: nat) {
    i < |w.runs| && w.runs[i].reserved == reserved && HasStamped(w.runs[i].phase)
  }

  predicate WorkingOn(w: World, reserved: Bytes, i: nat) {
    i < |w.runs| && w.runs[i].reserved == reserved && Working(w.runs[i].phase)
  }

  /** A run that reserved the plan as stamped by another run starts to clear that stamp. */
  ghost predicate Reclears(codec: Codec, w: World, a: Action, reserved: Bytes) {
    && a.Begin? && a.i < |w.runs| && w.runs[a.i].phase.Admitted?
    && exists j: nat :: StampedOn(w, reserved, j) && w.runs[a.i].reserved == w.runs[j].stamped
  }

  /** Whatever run has stamped: the source is its stamped plan, and no one is rewriting it. */
  ghost predicate StampsStand(w: World, reserved: Bytes) {
    forall i: nat :: StampedOn(w, reserved, i) ==> w.content == w.runs[i].stamped && w.source == None
  }

  ghost predicate Sane(codec: Codec, w: World, reserved: Bytes) {
    SourceOk(w) && LockOk(w) && AllBytesOk(codec, w) && FreshStamps(codec, w.runs, reserved)
  }

  lemma StepKeepsSane(codec: Codec, w: World, a: Action, reserved: Bytes)
    requires Sane(codec, w, reserved) && Enabled(codec, w, a)
    ensures Sane(codec, Step(codec, w, a), reserved)
  {
    StepKeepsSource(codec, w, a);
    StepKeepsLock(codec, w, a);
    StepKeepsBytes(codec, w, a);
    StepKeepsFresh(codec, w, a, reserved);
  }

  lemma DeathKeepsSane(codec: Codec, w: World, thread: nat, reserved: Bytes)
    requires Sane(codec, w, reserved)
    ensures Sane(codec, AfterDeath(w, thread), reserved)
  {
    DeathKeepsSource(w, thread);
    DeathKeepsLock(w, thread);
    DeathKeepsBytes(codec, w, thread);
    SameStampsFresh(codec, w.runs, AfterDeath(w, thread).runs, reserved);
  }

  /** The compare of a rewrite lets only the stamping run itself touch a stamped plan. */
  lemma OnlyUndoBegins(codec: Codec, w: World, a: Action, reserved: Bytes, j: nat)
    requires Faithful(codec) && Sane(codec, w, reserved) && StampsStand(w, reserved)
    requires Enabled(codec, w, a) && a.Begin? && StampedOn(w, reserved, j)
    requires !Reclears(codec, w, a, reserved)
    ensures a.i == j
  {
    var r := Prepared(codec, w.runs[a.i]).value;
    OwnStamp(codec, w.runs[j]);
    OwnStamp(codec, w.runs[a.i]);
    assert w.content == Expected(r) == w.runs[j].stamped;
  }

  lemma AtMostOneStands(codec: Codec, w: World, reserved: Bytes, i: nat, j: nat)
    requires Faithful(codec) && Sane(codec, w, reserved) && StampsStand(w, reserved)
    requires StampedOn(w, reserved, i) && StampedOn(w, reserved, j)
    ensures i == j && Carries(codec, w.content, w.runs[i].stamp)
  {
    OwnStamp(codec, w.runs[i]);
    OwnStamp(codec, w.runs[j]);
  }

  /** The acting run has a stamp after a step if it had one, or if its rewrite ended with the stamped plan. */
  lemma NextStamped(codec: Codec, w: World, a: Action)
    requires Enabled(codec, w, a) && HasStamped(NextRun(codec, w, a).phase)
    ensures NextRun(codec, w, a).stamped == w.runs[a.i].stamped && !a.Begin? && !a.Reserve?
    ensures HasStamped(w.runs[a.i].phase) || (Writes(w.runs[a.i].phase) && w.content == w.runs[a.i].stamped
      && (a.Confirm? || a.GiveUp?))
  {
  }

  /** A run that is not rewriting leaves the content alone. */
  lemma OnlyWritersWrite(codec: Codec, w: World, a: Action)
    requires Enabled(codec, w, a) && !Writes(w.runs[a.i].phase)
    ensures NextContent(w, a) == w.content && (!a.Begin? ==> NextSource(w, a) == w.source)
  {
  }

  /** No step but a new clear of the stamped plan, or the run's own undo, moves a stamp that stands. */
  lemma StepKeepsStands(codec: Codec, w: World, a: Action, reserved: Bytes)
    requires Faithful(codec) && Sane(codec, w, reserved) && StampsStand(w, reserved)
    requires Enabled(codec, w, a) && !Reclears(codec, w, a, reserved)
    ensures StampsStand(Step(codec, w, a), reserved)
  {
    var after := Step(codec, w, a);
    NextKeepsIdentity(codec, w, a);
    forall i: nat | StampedOn(after, reserved, i)
      ensures after.content == after.runs[i].stamped && after.source == None
    {
      if i == a.i {
        NextStamped(codec, w, a);
      }
      if StampedOn(w, reserved, i) {
        OnlyWritersWrite(codec, w, a);
        if a.Begin? {
          OnlyUndoBegins(codec, w, a, reserved, i);
        }
      }
    }
  }

  lemma DeathKeepsStands(codec: Codec, w: World, thread: nat, reserved: Bytes)
    requires Sane(codec, w, reserved) && StampsStand(w, reserved)
    ensures StampsStand(AfterDeath(w, thread), reserved)
  {
    var after := AfterDeath(w, thread);
    forall i: nat | StampedOn(after, reserved, i)
      ensures after.content == after.runs[i].stamped && after.source == None
    {
      if !StampedOn(w, reserved, i) {
        assert w.source == Some(i);
      }
    }
  }

  // ---------------------------------------------------------------- the lock and the revalidation

  /** The run that has stamped and the one at work on these bytes got the same lock. */
  predicate Meet(w: World, reserved: Bytes, i: nat, j: nat) {
    StampedOn(w, reserved, i) && WorkingOn(w, reserved, j) && w.runs[i].held == w.runs[j].held
  }

  /** While a stamp stands, only runs of its own thread may be at work on these bytes with its lock. */
  ghost predicate ShutOut(w: World, reserved: Bytes) {
    forall i: nat, j: nat :: Meet(w, reserved, i, j) ==> w.runs[i].thread == w.runs[j].thread
  }

  /** Revalidation refuses a run whose reserved bytes have been stamped by another one. */
  lemma RevalidationRefuses(codec: Codec, w: World, i: nat, j: nat, reserved: Bytes)
    requires Faithful(codec) && Sane(codec, w, reserved) && StampsStand(w, reserved)
    requires StampedOn(w, reserved, i) && In(w, j, Locked) && w.runs[j].reserved == reserved
    ensures Step(codec, w, Revalidate(j)).runs[j].phase == Leaving
  {
    OwnStamp(codec, w.runs[i]);
  }

  /** A lock serialises: whoever stamps holds one, and so does whoever works. */
  lemma StamperExcludes(w: World, i: nat, j: nat)
    requires LockOk(w) && i < |w.runs| && j < |w.runs| && Writes(w.runs[i].phase) && Working(w.runs[j].phase)
    requires w.runs[i].held == w.runs[j].held
    ensures w.runs[i].thread == w.runs[j].thread
  {
  }

  /** A run is at work after a step if it was before, or if it has just been admitted with its reserved bytes in place. */
  lemma NextWorking(codec: Codec, w: World, a: Action)
    requires Enabled(codec, w, a) && Working(NextRun(codec, w, a).phase)
    ensures !a.Reserve?
    ensures Working(w.runs[a.i].phase) || (a.Revalidate? && w.runs[a.i].phase == Locked && w.runs[a.i].reserved == w.content)
  {
  }

  lemma WorkingAfter(codec: Codec, w: World, a: Action, reserved: Bytes, j: nat)
    requires Enabled(codec, w, a) && WorkingOn(Step(codec, w, a), reserved, j)
    ensures var next := Step(codec, w, a).runs[j]; next.thread == w.runs[j].thread && next.held == w.runs[j].held
    ensures WorkingOn(w, reserved, j) || (a == Revalidate(j) && In(w, j, Locked) && w.runs[j].reserved == w.content == reserved)
  {
    if j == a.i {
      NextKeepsIdentity(codec, w, a);
      NextWorking(codec, w, a);
    }
  }

  lemma StampedAfter(codec: Codec, w: World, a: Action, reserved: Bytes, i: nat)
    requires Enabled(codec, w, a) && StampedOn(Step(codec, w, a), reserved, i)
    ensures var next := Step(codec, w, a).runs[i]; next.thread == w.runs[i].thread && next.held == w.runs[i].held
    ensures StampedOn(w, reserved, i) || (i == a.i && Writes(w.runs[i].phase))
  {
    if i == a.i {
      NextKeepsIdentity(codec, w, a);
      NextStamped(codec, w, a);
    }
  }

  lemma StepKeepsShutOut(codec: Codec, w: World, a: Action, reserved: Bytes)
    requires Faithful(codec) && Sane(codec, w, reserved) && StampsStand(w, reserved) && ShutOut(w, reserved)
    requires Enabled(codec, w, a)
    ensures ShutOut(Step(codec, w, a), reserved)
  {
    var after := Step(codec, w, a);
    forall i: nat, j: nat | Meet(after, reserved, i, j) ensures after.runs[i].thread == after.runs[j].thread {
      StampedAfter(codec, w, a, reserved, i);
      WorkingAfter(codec, w, a, reserved, j);
      if !StampedOn(w, reserved, i) {
        StamperExcludes(w, i, j);
      } else if !WorkingOn(w, reserved, j) {
        RevalidationRefuses(codec, w, i, j, reserved);
      } else {
        assert Meet(w, reserved, i, j);
      }
    }
  }

  lemma DeathKeepsShutOut(codec: Codec, w: World, thread: nat, reserved: Bytes)
    requires Sane(codec, w, reserved) && ShutOut(w, reserved)
    ensures ShutOut(AfterDeath(w, thread), reserved)
  {
    var after := AfterDeath(w, thread);
    forall i: nat, j: nat | Meet(after, reserved, i, j) ensures after.runs[i].thread == after.runs[j].thread {
      assert WorkingOn(w, reserved, j);
      if !StampedOn(w, reserved, i) {
        StamperExcludes(w, i, j);
      } else {
        assert Meet(w, reserved, i, j);
      }
    }
  }

  // ---------------------------------------------------------------- when every run reserved the same bytes

  /** All reservations so far found these bytes. */
  ghost predicate AllReserved(w: World, reserved: Bytes) {
    forall i :: 0 <= i < |w.runs| && !w.runs[i].phase.Idle? && !w.runs[i].phase.Dead? ==> w.runs[i].reserved == reserved
  }

  /** The step reserves nothing else. */
  predicate ReservesOnly(w: World, a: Action, reserved: Bytes) {
    a.Reserve? ==> w.content == reserved
  }

  lemma StepKeepsReserved(codec: Codec, w: World, a: Action, reserved: Bytes)
    requires AllReserved(w, reserved) && Enabled(codec, w, a) && ReservesOnly(w, a, reserved)
    ensures AllReserved(Step(codec, w, a), reserved)
  {
    NextKeepsIdentity(codec, w, a);
  }

  lemma DeathKeepsReserved(w: World, thread: nat, reserved: Bytes)
    requires AllReserved(w, reserved)
    ensures AllReserved(AfterDeath(w, thread), reserved)
  {
  }

  /** Then no run can have reserved a stamped plan. */
  lemma NothingReclears(codec: Codec, w: World, a: Action, reserved: Bytes)
    requires Faithful(codec) && Sane(codec, w, reserved) && AllReserved(w, reserved) && Enabled(codec, w, a)
    ensures !Reclears(codec, w, a, reserved)
  {
    if Reclears(codec, w, a, reserved) {
      var j: nat :| StampedOn(w, reserved, j) && w.runs[a.i].reserved == w.runs[j].stamped;
      OwnStamp(codec, w.runs[j]);
    }
  }

  /** The source is the reserved plan, the cleared one, or the stamped plan of the run that has stamped. */
  ghost predicate Whole(codec: Codec, w: World, reserved: Bytes) {
    || w.content == reserved
    || Some(w.content) == ExecutedAtPayload(codec, reserved, "")
    || exists k: nat :: StampedOn(w, reserved, k) && w.content == w.runs[k].stamped
  }

  /** Between rewrites, unless one was torn. */
  ghost predicate WholeBetween(codec: Codec, w: World, reserved: Bytes) {
    w.source == None && !w.torn ==> Whole(codec, w, reserved)
  }

  /** A rewrite of run `k` that ended with one of its two contents. */
  lemma EndedWhole(codec: Codec, w: World, after: World, k: nat, reserved: Bytes)
    requires AllBytesOk(codec, w) && AllReserved(w, reserved) && |after.runs| == |w.runs| && k < |w.runs|
    requires Writes(w.runs[k].phase) && !Tears(w.content, w.runs[k]) && after.content == w.content
    requires after.runs[k].reserved == w.runs[k].reserved && after.runs[k].stamped == w.runs[k].stamped
    requires PastStamping(w.runs[k].phase) && w.content == w.runs[k].stamped ==> HasStamped(after.runs[k].phase)
    ensures Whole(codec, after, reserved)
  {
    assert BytesOk(codec, w.runs[k]);
    if PastStamping(w.runs[k].phase) && w.content == w.runs[k].stamped {
      assert StampedOn(after, reserved, k);
    }
  }

  lemma DeathKeepsWhole(codec: Codec, w: World, thread: nat, reserved: Bytes)
    requires Sane(codec, w, reserved) && AllReserved(w, reserved) && WholeBetween(codec, w, reserved)
    ensures WholeBetween(codec, AfterDeath(w, thread), reserved)
  {
    var after := AfterDeath(w, thread);
    if after.source == None && !after.torn {
      if w.source == None {
        forall k: nat | StampedOn(w, reserved, k) && w.content == w.runs[k].stamped
          ensures StampedOn(after, reserved, k) && after.runs[k].stamped == w.runs[k].stamped
        {
        }
      } else {
        EndedWhole(codec, w, after, w.source.value, reserved);
      }
    }
  }

  /** A step of a run that leaves the source alone, with no rewrite before or after it. */
  lemma QuietKeepsWhole(codec: Codec, w: World, a: Action, reserved: Bytes)
    requires Enabled(codec, w, a) && SourceOk(w) && w.source == None && Whole(codec, w, reserved)
    requires Step(codec, w, a).source == None
    ensures Whole(codec, Step(codec, w, a), reserved)
  {
    var after := Step(codec, w, a);
    OnlyWritersWrite(codec, w, a);
    forall k: nat | StampedOn(w, reserved, k) && w.content == w.runs[k].stamped
      ensures StampedOn(after, reserved, k) && after.runs[k].stamped == w.runs[k].stamped
    {
      if k == a.i {
        NextKeepsIdentity(codec, w, a);
        StampKept(codec, w, a);
      }
    }
  }

  /** Only the undo begins to take a stamp away. */
  lemma StampKept(codec: Codec, w: World, a: Action)
    requires Enabled(codec, w, a) && HasStamped(w.runs[a.i].phase) && !a.Begin?
    ensures HasStamped(NextRun(codec, w, a).phase) && NextRun(codec, w, a).stamped == w.runs[a.i].stamped && !a.Reserve?
  {
  }

  lemma StepKeepsWhole(codec: Codec, w: World, a: Action, reserved: Bytes)
    requires Faithful(codec) && Sane(codec, w, reserved) && AllReserved(w, reserved) && WholeBetween(codec, w, reserved)
    requires Enabled(codec, w, a)
    ensures WholeBetween(codec, Step(codec, w, a), reserved)
  {
    var after := Step(codec, w, a);
    if after.source == None && !after.torn {
      if a.Confirm? || a.GiveUp? {
        OwnStamp(codec, w.runs[a.i]);
        EndedWhole(codec, w, after, a.i, reserved);
      } else {
        QuietKeepsWhole(codec, w, a, reserved);
      }
    }
  }

  /** The source carries a run's stamp exactly when that run has put it there. */
  lemma WholeShowsStamps(codec: Codec, w: World, reserved: Bytes, i: nat)
    requires Faithful(codec) && Sane(codec, w, reserved) && AllReserved(w, reserved)
    requires StampsStand(w, reserved) && Whole(codec, w, reserved) && i < |w.runs|
    ensures Carries(codec, w.content, w.runs[i].stamp) <==> HasStamped(w.runs[i].phase)
  {
    OwnStamp(codec, w.runs[i]);
    if Some(w.content) == ExecutedAtPayload(codec, reserved, "") {
      PayloadCarriesStamp(codec, reserved, "");
    }
    if HasStamped(w.runs[i].phase) {
      assert StampedOn(w, reserved, i);
    }
    if k: nat :| StampedOn(w, reserved, k) && w.content == w.runs[k].stamped {
      OwnStamp(codec, w.runs[k]);
    }
  }

  // ---------------------------------------------------------------- runs of one thread

  /** The run has put the cleared plan in place, or is doing so, and still uses it. */
  predicate UsesClear(p: Phase) {
    p.Cleared? || p.Executing? || p.Stamped? || p.Kept? || Writes(p)
  }

  /** At most one run uses the cleared plan, and while no rewrite is under way the source shows it. */
  ghost predicate ClearedAlone(w: World) {
    && (forall i, j :: 0 <= i < j < |w.runs| ==> !(UsesClear(w.runs[i].phase) && UsesClear(w.runs[j].phase)))
    && forall i :: 0 <= i < |w.runs| && (w.runs[i].phase.Cleared? || w.runs[i].phase.Executing?) ==>
      w.content == w.runs[i].execution && w.source == None
  }

  /** When clearing changes the plan, no second run gets past its clear, whatever its thread. */
  lemma SecondClearRefused(codec: Codec, w: World, reserved: Bytes, i: nat, k: nat)
    requires Faithful(codec) && Sane(codec, w, reserved) && AllReserved(w, reserved) && StampsStand(w, reserved)
    requires ClearedAlone(w) && !Carries(codec, reserved, "")
    requires i < |w.runs| && UsesClear(w.runs[i].phase) && In(w, k, Admitted)
    ensures !Enabled(codec, w, Begin(k)) && !Enabled(codec, w, SkipClear(k))
  {
    OwnStamp(codec, w.runs[i]);
    if HasStamped(w.runs[i].phase) {
      assert StampedOn(w, reserved, i);
    }
  }

  /** The acting run uses the cleared plan after a step if it did before, or if it has just passed its clear. */
  lemma NextUsesClear(codec: Codec, w: World, a: Action)
    requires Enabled(codec, w, a) && UsesClear(NextRun(codec, w, a).phase)
    ensures UsesClear(w.runs[a.i].phase) || (In(w, a.i, Admitted) && (a.Begin? || a.SkipClear?))
  {
  }

  /** The source for the acting run, when it goes on executing. */
  lemma NextShown(codec: Codec, w: World, a: Action)
    requires Enabled(codec, w, a) && SourceOk(w) && ClearedAlone(w) && UsesClear(w.runs[a.i].phase)
    requires var p := NextRun(codec, w, a).phase; p.Cleared? || p.Executing?
    ensures NextContent(w, a) == NextRun(codec, w, a).execution && NextSource(w, a) == None
  {
  }

  /** For another run the source stays as it is: only the one that uses the cleared plan rewrites. */
  lemma OtherShown(codec: Codec, w: World, a: Action, i: nat)
    requires Enabled(codec, w, a) && ClearedAlone(w) && i < |w.runs| && i != a.i && UsesClear(w.runs[i].phase)
    requires !(a.Begin? && In(w, a.i, Admitted))
    ensures NextContent(w, a) == w.content && NextSource(w, a) == w.source
  {
    assert !UsesClear(w.runs[a.i].phase);
    OnlyWritersWrite(codec, w, a);
    if a.Begin? {
      BeginsFrom(codec, w, a);
    }
  }

  lemma BeginsFrom(codec: Codec, w: World, a: Action)
    requires Enabled(codec, w, a) && a.Begin?
    ensures In(w, a.i, Admitted) || UsesClear(w.runs[a.i].phase)
  {
  }

  lemma NoOneElse(codec: Codec, w: World, a: Action, reserved: Bytes)
    requires Faithful(codec) && Sane(codec, w, reserved) && AllReserved(w, reserved) && StampsStand(w, reserved)
    requires ClearedAlone(w) && !Carries(codec, reserved, "")
    requires Enabled(codec, w, a) && (a.Begin? || a.SkipClear?) && In(w, a.i, Admitted)
    ensures a.Begin? && forall j :: 0 <= j < |w.runs| ==> !UsesClear(w.runs[j].phase)
  {
    forall j: nat | j < |w.runs| ensures !UsesClear(w.runs[j].phase) {
      if UsesClear(w.runs[j].phase) {
        SecondClearRefused(codec, w, reserved, j, a.i);
      }
    }
  }

  /** A run passes its clear: it is then the only one that uses the cleared plan. */
  lemma FirstClear(codec: Codec, w: World, a: Action, reserved: Bytes)
    requires Faithful(codec) && Sane(codec, w, reserved) && AllReserved(w, reserved) && StampsStand(w, reserved)
    requires ClearedAlone(w) && !Carries(codec, reserved, "")
    requires Enabled(codec, w, a) && (a.Begin? || a.SkipClear?) && In(w, a.i, Admitted)
    ensures ClearedAlone(Step(codec, w, a))
  {
    NoOneElse(codec, w, a, reserved);
  }

  lemma StepKeepsAlone(codec: Codec, w: World, a: Action, reserved: Bytes)
    requires Faithful(codec) && Sane(codec, w, reserved) && AllReserved(w, reserved) && StampsStand(w, reserved)
    requires ClearedAlone(w) && !Carries(codec, reserved, "") && Enabled(codec, w, a)
    ensures ClearedAlone(Step(codec, w, a))
  {
    if (a.Begin? || a.SkipClear?) && In(w, a.i, Admitted) {
      FirstClear(codec, w, a, reserved);
    } else {
      var after := Step(codec, w, a);
      forall i: nat | i < |w.runs| && UsesClear(after.runs[i].phase) ensures UsesClear(w.runs[i].phase) {
        if i == a.i {
          NextUsesClear(codec, w, a);
        }
      }
      forall i: nat | i < |w.runs| && (after.runs[i].phase.Cleared? || after.runs[i].phase.Executing?)
        ensures after.content == after.runs[i].execution && after.source == None
      {
        if i == a.i {
          NextShown(codec, w, a);
        } else {
          OtherShown(codec, w, a, i);
        }
      }
    }
  }

  lemma DeathKeepsAlone(w: World, thread: nat)
    requires SourceOk(w) && ClearedAlone(w)
    ensures ClearedAlone(AfterDeath(w, thread))
  {
  }
}
