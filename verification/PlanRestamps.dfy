/** When two runs on the same plan bytes can both have stamped: the plan must be a cleared one, as it is printed. */
module PlanRestamps {
  import opened Common
  import opened PosixFile
  import opened PlanPayload
  import opened PlanLocking
  import opened PlanStamps
  import opened PlanRuns
  import opened PlanReentry

  /** A plan with the empty stamp, exactly as the JSON library prints it. */
  ghost predicate PrintedCleared(codec: Codec, bytes: Bytes) {
    exists rest :: bytes == codec.dump(Plan(Some(Text("")), rest))
  }

  /** The run has begun to take the source away from the bytes it reserved, and not put them back. */
  predicate Moved(r: Run) {
    PastClear(r.phase)
    && (r.execution != r.reserved || PastStamping(r.phase) || r.phase.Clearing? || r.phase.UndoingClear?)
  }

  predicate MovedOn(w: World, reserved: Bytes, i: nat) {
    i < |w.runs| && w.runs[i].reserved == reserved && Moved(w.runs[i])
  }

  /** Between rewrites the source is something else than the reserved bytes, and no rewrite compared with them. */
  ghost predicate Away(w: World, reserved: Bytes, i: nat) {
    && (w.source == None ==> w.content != reserved)
    && (w.source.Some? && w.source.value != i && w.source.value < |w.runs| ==>
      Expected(w.runs[w.source.value]) != reserved)
  }

  /** At most one run has moved the source away from the reserved bytes, and away it is. */
  ghost predicate OneAway(w: World, reserved: Bytes) {
    !w.torn ==>
      && (forall i: nat, j: nat :: MovedOn(w, reserved, i) && MovedOn(w, reserved, j) ==> i == j)
      && forall i: nat :: MovedOn(w, reserved, i) ==> Away(w, reserved, i)
  }

  ghost predicate RestampOk(codec: Codec, w: World, reserved: Bytes) {
    Sane(codec, w, reserved) && OneAway(w, reserved)
  }

  /** A payload that differs from the bytes it was made from is a printed plan. */
  lemma ClearedIsPrinted(codec: Codec, r: Run)
    requires BytesOk(codec, r) && PastClear(r.phase) && r.execution != r.reserved
    ensures PrintedCleared(codec, r.execution)
  {
    var plan := codec.parse(r.reserved).plan;
    assert plan.(stamp := Some(Text(""))) == Plan(Some(Text("")), plan.rest);
  }

  /** Only a run that has moved the source away from the reserved bytes writes them back. */
  lemma OnlyMoverWritesBack(codec: Codec, w: World, reserved: Bytes, k: nat)
    requires Faithful(codec) && Sane(codec, w, reserved) && !PrintedCleared(codec, reserved)
    requires k < |w.runs| && Writes(w.runs[k].phase) && Replacement(w.runs[k]) == reserved
    ensures MovedOn(w, reserved, k) && !w.runs[k].phase.Stamping?
  {
    var r := w.runs[k];
    assert BytesOk(codec, r);
    OwnStamp(codec, r);
    if r.execution != r.reserved {
      ClearedIsPrinted(codec, r);
    }
  }

  /** The source is the run's stamped plan, or its cleared one where that is another one. */
  predicate EndsAway(content: Bytes, r: Run) {
    (content == r.stamped && PastStamping(r.phase)) || content == r.execution != r.reserved
  }

  /** A run whose rewrite has ended: if it is still away, the source is its cleared or stamped plan. */
  lemma EndedAway(codec: Codec, w: World, after: World, reserved: Bytes, i: nat, k: nat)
    requires Faithful(codec) && Sane(codec, w, reserved) && !PrintedCleared(codec, reserved)
    requires !w.torn && OneAway(w, reserved) && w.source == Some(k) && !Tears(w.content, w.runs[k])
    requires after.content == w.content && after.source == None && |after.runs| == |w.runs|
    requires MovedOn(after, reserved, i) && i != k ==> MovedOn(w, reserved, i)
    requires MovedOn(after, reserved, i) && i == k ==> MovedOn(w, reserved, k) && EndsAway(w.content, w.runs[k])
    ensures MovedOn(after, reserved, i) ==> Away(after, reserved, i)
  {
    if MovedOn(after, reserved, i) {
      assert BytesOk(codec, w.runs[k]);
      OwnStamp(codec, w.runs[k]);
      if i != k {
        assert Away(w, reserved, i);
        if Replacement(w.runs[k]) == reserved {
          OnlyMoverWritesBack(codec, w, reserved, k);
          assert false;
        }
      }
    }
  }

  /** A run has moved after a step if it had before, or if it begins to rewrite the reserved bytes. */
  lemma NextMoved(codec: Codec, w: World, a: Action)
    requires Enabled(codec, w, a) && Moved(NextRun(codec, w, a))
    ensures NextRun(codec, w, a).reserved == w.runs[a.i].reserved && !a.SkipClear?
    ensures Moved(w.runs[a.i]) || (a.Begin? && Expected(NextRun(codec, w, a)) == w.runs[a.i].reserved)
  {
  }

  /** After its rewrite a run is still away only with its cleared or its stamped plan in place. */
  lemma EndedMoved(codec: Codec, w: World, a: Action)
    requires Enabled(codec, w, a) && (a.Confirm? || a.GiveUp?) && Moved(NextRun(codec, w, a))
    ensures EndsAway(w.content, w.runs[a.i])
  {
  }

  lemma MovedBefore(codec: Codec, w: World, a: Action, reserved: Bytes, i: nat)
    requires Enabled(codec, w, a) && MovedOn(Step(codec, w, a), reserved, i)
    ensures MovedOn(w, reserved, i) || (a.Begin? && i == a.i && w.content == reserved && w.source == None)
  {
    if i == a.i {
      NextMoved(codec, w, a);
    }
  }

  lemma BeginKeepsAway(codec: Codec, w: World, a: Action, reserved: Bytes)
    requires Sane(codec, w, reserved) && OneAway(w, reserved) && Enabled(codec, w, a) && a.Begin?
    ensures OneAway(Step(codec, w, a), reserved)
  {
    var after := Step(codec, w, a);
    if !w.torn {
      forall i: nat, j: nat | MovedOn(after, reserved, i) && MovedOn(after, reserved, j) ensures i == j {
        MovedBefore(codec, w, a, reserved, i);
        MovedBefore(codec, w, a, reserved, j);
        assert MovedOn(w, reserved, i) ==> Away(w, reserved, i);
        assert MovedOn(w, reserved, j) ==> Away(w, reserved, j);
      }
      forall i: nat | MovedOn(after, reserved, i) ensures Away(after, reserved, i) {
        MovedBefore(codec, w, a, reserved, i);
        assert MovedOn(w, reserved, i) ==> Away(w, reserved, i);
      }
    }
  }

  lemma EndKeepsAway(codec: Codec, w: World, a: Action, reserved: Bytes)
    requires Faithful(codec) && Sane(codec, w, reserved) && !PrintedCleared(codec, reserved)
    requires OneAway(w, reserved) && Enabled(codec, w, a) && (a.Confirm? || a.GiveUp?)
    ensures OneAway(Step(codec, w, a), reserved)
  {
    var after := Step(codec, w, a);
    if !after.torn {
      forall i: nat, j: nat | MovedOn(after, reserved, i) && MovedOn(after, reserved, j) ensures i == j {
        MovedBefore(codec, w, a, reserved, i);
        MovedBefore(codec, w, a, reserved, j);
      }
      forall i: nat | MovedOn(after, reserved, i) ensures Away(after, reserved, i) {
        MovedBefore(codec, w, a, reserved, i);
        if i == a.i {
          EndedMoved(codec, w, a);
        }
        EndedAway(codec, w, after, reserved, i, a.i);
      }
    }
  }

  /** Any other step leaves the source alone, or goes on with the rewrite under way. */
  lemma QuietKeepsAway(codec: Codec, w: World, a: Action, reserved: Bytes)
    requires Sane(codec, w, reserved) && OneAway(w, reserved) && Enabled(codec, w, a)
    requires !a.Begin? && !a.Confirm? && !a.GiveUp?
    ensures OneAway(Step(codec, w, a), reserved)
  {
    var after := Step(codec, w, a);
    if !w.torn {
      forall i: nat, j: nat | MovedOn(after, reserved, i) && MovedOn(after, reserved, j) ensures i == j {
        MovedBefore(codec, w, a, reserved, i);
        MovedBefore(codec, w, a, reserved, j);
      }
      forall i: nat | MovedOn(after, reserved, i) ensures Away(after, reserved, i) {
        MovedBefore(codec, w, a, reserved, i);
        assert Away(w, reserved, i);
        QuietWriter(codec, w, a);
      }
    }
  }

  lemma QuietWriter(codec: Codec, w: World, a: Action)
    requires SourceOk(w) && Enabled(codec, w, a) && !a.Begin? && !a.Confirm? && !a.GiveUp?
    ensures Step(codec, w, a).source == w.source && (w.source == None ==> Step(codec, w, a).content == w.content)
    ensures w.source.Some? ==> Expected(Step(codec, w, a).runs[w.source.value]) == Expected(w.runs[w.source.value])
  {
    if w.source == Some(a.i) {
      WriterStep(codec, w, a);
    } else {
      OnlyWritersWrite(codec, w, a);
    }
  }

  lemma WriterStep(codec: Codec, w: World, a: Action)
    requires Enabled(codec, w, a) && Writes(w.runs[a.i].phase) && !a.Begin? && !a.Confirm? && !a.GiveUp?
    ensures NextRun(codec, w, a) == w.runs[a.i]
  {
  }

  lemma StepKeepsAway(codec: Codec, w: World, a: Action, reserved: Bytes)
    requires Faithful(codec) && RestampOk(codec, w, reserved) && !PrintedCleared(codec, reserved) && Enabled(codec, w, a)
    ensures RestampOk(codec, Step(codec, w, a), reserved)
  {
    StepKeepsSane(codec, w, a, reserved);
    if a.Begin? {
      BeginKeepsAway(codec, w, a, reserved);
    } else if a.Confirm? || a.GiveUp? {
      EndKeepsAway(codec, w, a, reserved);
    } else {
      QuietKeepsAway(codec, w, a, reserved);
    }
  }

  /** A dead run has moved only if it died with its stamp in the source. */
  lemma DeadMoved(content: Bytes, r: Run, thread: nat)
    requires Moved(Killed(content, r, thread))
    ensures Moved(r)
    ensures r.thread == thread && Writes(r.phase) ==> content == r.stamped && PastStamping(r.phase)
  {
  }

  lemma DeathKeepsAway(codec: Codec, w: World, thread: nat, reserved: Bytes)
    requires Faithful(codec) && RestampOk(codec, w, reserved) && !PrintedCleared(codec, reserved)
    ensures RestampOk(codec, AfterDeath(w, thread), reserved)
  {
    var after := AfterDeath(w, thread);
    DeathKeepsSane(codec, w, thread, reserved);
    if !after.torn {
      forall i: nat | MovedOn(after, reserved, i) ensures MovedOn(w, reserved, i) && Away(after, reserved, i) {
        DeadMoved(w.content, w.runs[i], thread);
        assert Away(w, reserved, i);
        if Owns(w, thread) {
          EndedAway(codec, w, after, reserved, i, w.source.value);
        }
      }
    }
  }

  lemma {:induction false} OneAwayUnlessPrinted(codec: Codec, worlds: seq<World>, n: nat, reserved: Bytes)
    requires Faithful(codec) && IsHistory(codec, worlds) && FreshStamps(codec, worlds[0].runs, reserved) && n < |worlds|
    requires !PrintedCleared(codec, reserved)
    ensures RestampOk(codec, worlds[n], reserved)
  {
    if n == 0 {
      InitialSane(codec, worlds[0], reserved);
    } else {
      OneAwayUnlessPrinted(codec, worlds, n - 1, reserved);
      assert Moves(codec, worlds[n - 1], worlds[n]);
      if Dies(worlds[n - 1], worlds[n]) {
        var thread :| worlds[n] == AfterDeath(worlds[n - 1], thread);
        DeathKeepsAway(codec, worlds[n - 1], thread, reserved);
      } else {
        var a :| Enabled(codec, worlds[n - 1], a) && worlds[n] == Step(codec, worlds[n - 1], a);
        StepKeepsAway(codec, worlds[n - 1], a, reserved);
      }
    }
  }

  /** A history in which no rewrite is torn, and two runs that reserved these bytes have both stamped. */
  ghost predicate BothStampOn(codec: Codec, reserved: Bytes, worlds: seq<World>, i: nat, j: nat) {
    && IsHistory(codec, worlds) && FreshStamps(codec, worlds[0].runs, reserved)
    && var w := worlds[|worlds| - 1];
    !w.torn && i != j && StampedOn(w, reserved, i) && StampedOn(w, reserved, j)
  }

  /**
   Unless a rewrite is torn, two runs that reserved the same bytes can both stamp if and
   only if these bytes are a cleared plan as the JSON library prints it: only then can a
   later run restore them by clearing the first stamp.
   */
  lemma BothStampIffPrintedCleared(codec: Codec, reserved: Bytes)
    requires Faithful(codec)
    ensures (exists worlds, i, j :: BothStampOn(codec, reserved, worlds, i, j)) <==> PrintedCleared(codec, reserved)
  {
    if rest :| reserved == codec.dump(Plan(Some(Text("")), rest)) {
      var worlds := BothFinishWhenRecleared(codec, rest, "1", "2", "3");
      assert BothStampOn(codec, reserved, worlds, 0, 1);
    } else if worlds, i, j :| BothStampOn(codec, reserved, worlds, i, j) {
      OneAwayUnlessPrinted(codec, worlds, |worlds| - 1, reserved);
      assert MovedOn(worlds[|worlds| - 1], reserved, i) && MovedOn(worlds[|worlds| - 1], reserved, j);
    }
  }
}
