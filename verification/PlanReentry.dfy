/** Histories that exist: what runs may do that reenter on one thread, or whose stamp is cleared by a later plan. */
module PlanReentry {
  import opened Common
  import opened PosixFile
  import opened PlanPayload
  import opened PlanLocking
  import opened PlanStamps
  import opened PlanRuns

  // ---------------------------------------------------------------- building histories

  /** A step; when bytes are given, reservations find them. */
  ghost predicate Goes(codec: Codec, only: Option<Bytes>, w: World, a: Action) {
    Enabled(codec, w, a) && (only.Some? ==> ReservesOnly(w, a, only.value))
  }

  ghost predicate Leads(codec: Codec, only: Option<Bytes>, w: World, a: Action, after: World) {
    Goes(codec, only, w, a) && after == Step(codec, w, a)
  }

  ghost predicate Joined(codec: Codec, only: Option<Bytes>, w: World, after: World) {
    exists a :: Leads(codec, only, w, a, after)
  }

  /** Some series of steps leads from `start` to `w`. */
  ghost predicate Reaches(codec: Codec, only: Option<Bytes>, start: World, w: World) {
    exists worlds :: Trail(codec, only, start, worlds, w)
  }

  ghost predicate Trail(codec: Codec, only: Option<Bytes>, start: World, worlds: seq<World>, w: World) {
    && worlds != [] && worlds[0] == start && worlds[|worlds| - 1] == w
    && forall i :: 0 < i < |worlds| ==> Joined(codec, only, worlds[i - 1], worlds[i])
  }

  lemma Stay(codec: Codec, only: Option<Bytes>, start: World)
    ensures Reaches(codec, only, start, start)
  {
    assert Trail(codec, only, start, [start], start);
  }

  lemma Advance(codec: Codec, only: Option<Bytes>, start: World, w: World, a: Action, after: World)
    requires Reaches(codec, only, start, w) && Goes(codec, only, w, a) && after == Step(codec, w, a)
    ensures Reaches(codec, only, start, after)
  {
    var worlds :| Trail(codec, only, start, worlds, w);
    var longer := worlds + [after];
    forall i | 0 < i < |longer| ensures Joined(codec, only, longer[i - 1], longer[i]) {
      if i < |worlds| {
        assert Joined(codec, only, worlds[i - 1], worlds[i]);
        assert longer[i - 1] == worlds[i - 1] && longer[i] == worlds[i];
      } else {
        assert longer[i - 1] == w;
        assert Leads(codec, only, longer[i - 1], a, longer[i]);
      }
    }
    assert Trail(codec, only, start, longer, after);
  }

  lemma ReachedIsHistory(codec: Codec, start: World, w: World) returns (worlds: seq<World>)
    requires Reaches(codec, None, start, w) && Initial(start)
    ensures IsHistory(codec, worlds) && worlds[0] == start && worlds[|worlds| - 1] == w
  {
    worlds :| Trail(codec, None, start, worlds, w);
    forall i | 0 < i < |worlds| ensures Moves(codec, worlds[i - 1], worlds[i]) {
      assert Joined(codec, None, worlds[i - 1], worlds[i]);
      var a :| Leads(codec, None, worlds[i - 1], a, worlds[i]);
    }
  }

  lemma ReachedIsHistoryOn(codec: Codec, reserved: Bytes, start: World, w: World) returns (worlds: seq<World>)
    requires Reaches(codec, Some(reserved), start, w) && Initial(start)
    requires start.content == reserved && FreshStamps(codec, start.runs, reserved)
    ensures HistoryOn(codec, reserved, worlds) && worlds[0] == start && worlds[|worlds| - 1] == w
  {
    worlds :| Trail(codec, Some(reserved), start, worlds, w);
    forall i | 0 < i < |worlds| ensures MovesOn(codec, reserved, worlds[i - 1], worlds[i]) {
      assert Joined(codec, Some(reserved), worlds[i - 1], worlds[i]);
      var a :| Leads(codec, Some(reserved), worlds[i - 1], a, worlds[i]);
    }
  }

  // ---------------------------------------------------------------- a run by itself

  function With(w: World, i: nat, r: Run): World
    requires i < |w.runs|
  {
    w.(runs := w.runs[i := r])
  }

  lemma WithTwice(w: World, i: nat, r: Run, q: Run)
    requires i < |w.runs|
    ensures With(With(w, i, r), i, q) == With(w, i, q)
  {
    assert w.runs[i := r][i := q] == w.runs[i := q];
  }

  lemma SoloReserves(codec: Codec, only: Option<Bytes>, start: World, w: World, i: nat)
    requires Reaches(codec, only, start, w) && In(w, i, Idle) && (only.Some? ==> w.content == only.value)
    ensures Reaches(codec, only, start, With(w, i, w.runs[i].(phase := Reserved, reserved := w.content)))
  {
    Advance(codec, only, start, w, Reserve(i), With(w, i, w.runs[i].(phase := Reserved, reserved := w.content)));
  }

  /** From reserved to admitted. */
  lemma SoloAdmitted(codec: Codec, only: Option<Bytes>, start: World, w: World, i: nat, at: nat)
    requires Reaches(codec, only, start, w) && In(w, i, Reserved) && CanTake(w.locks, w.runs[i], at)
    requires w.content == w.runs[i].reserved
    ensures Reaches(codec, only, start,
      With(w, i, w.runs[i].(phase := Admitted, held := at)).(locks := Taken(w.locks, w.runs[i].thread, at)))
  {
    var r := w.runs[i].(held := at);
    var held := w.(locks := Taken(w.locks, r.thread, at));
    var locked := With(held, i, r.(phase := Locked));
    Advance(codec, only, start, w, Acquire(i, at), locked);
    WithTwice(held, i, r.(phase := Locked), r.(phase := Admitted));
    Advance(codec, only, start, locked, Revalidate(i), With(held, i, r.(phase := Admitted)));
  }

  /** From admitted to executing, when the plan is already cleared. */
  lemma SoloSkips(codec: Codec, only: Option<Bytes>, start: World, w: World, i: nat)
    requires Reaches(codec, only, start, w) && In(w, i, Admitted) && Carries(codec, w.runs[i].reserved, "")
    ensures Reaches(codec, only, start,
      With(w, i, w.runs[i].(phase := Executing, execution := w.runs[i].reserved)))
  {
    var cleared := w.runs[i].(phase := Cleared, execution := w.runs[i].reserved);
    Advance(codec, only, start, w, SkipClear(i), With(w, i, cleared));
    WithTwice(w, i, cleared, cleared.(phase := Executing));
    Advance(codec, only, start, With(w, i, cleared), AuditClear(i), With(w, i, cleared.(phase := Executing)));
  }

  /** From reserved to executing, when the plan is already cleared. */
  lemma SoloExecutes(codec: Codec, only: Option<Bytes>, start: World, w: World, i: nat, at: nat)
    requires Reaches(codec, only, start, w) && In(w, i, Reserved) && CanTake(w.locks, w.runs[i], at)
    requires w.content == w.runs[i].reserved && Carries(codec, w.content, "")
    ensures Reaches(codec, only, start,
      With(w, i, w.runs[i].(phase := Executing, held := at, execution := w.content))
        .(locks := Taken(w.locks, w.runs[i].thread, at)))
  {
    var r := w.runs[i].(held := at);
    var held := w.(locks := Taken(w.locks, r.thread, at));
    SoloAdmitted(codec, only, start, w, i, at);
    SoloSkips(codec, only, start, With(held, i, r.(phase := Admitted)), i);
    WithTwice(held, i, r.(phase := Admitted), r.(phase := Executing, execution := w.content));
  }

  /** A whole rewrite of the plan file: begun, written and confirmed. */
  lemma SoloRewrites(codec: Codec, only: Option<Bytes>, start: World, w: World, i: nat)
    requires Reaches(codec, only, start, w) && i < |w.runs| && w.source == None
    requires Prepared(codec, w.runs[i]).Some? && w.content == Expected(Prepared(codec, w.runs[i]).value)
    ensures var r := Prepared(codec, w.runs[i]).value;
      Reaches(codec, only, start, With(w, i, r.(phase := Confirmed(r.phase))).(content := Replacement(r)))
  {
    var r := Prepared(codec, w.runs[i]).value;
    var begun := With(w, i, r).(source := Some(i));
    Advance(codec, only, start, w, Begin(i), begun);
    var written := begun.(content := Replacement(r));
    Advance(codec, only, start, begun, WriteAll(i, false), written);
    assert With(begun, i, r.(phase := Confirmed(r.phase))).runs == With(w, i, r.(phase := Confirmed(r.phase))).runs;
    Advance(codec, only, start, written, Confirm(i),
            With(w, i, r.(phase := Confirmed(r.phase))).(content := Replacement(r)));
  }

  /** The stamp is kept and the lock dropped. */
  lemma SoloLeaves(codec: Codec, only: Option<Bytes>, start: World, w: World, i: nat)
    requires Reaches(codec, only, start, w) && In(w, i, Stamped) && w.runs[i].held in w.locks
    ensures Reaches(codec, only, start,
      With(w, i, w.runs[i].(phase := Finished)).(locks := Dropped(w.locks, w.runs[i].held)))
  {
    var kept := With(w, i, w.runs[i].(phase := Kept));
    var left := With(w, i, w.runs[i].(phase := Finished)).(locks := Dropped(w.locks, w.runs[i].held));
    Advance(codec, only, start, w, Keep(i), kept);
    WithTwice(w, i, w.runs[i].(phase := Kept), w.runs[i].(phase := Finished));
    Advance(codec, only, start, kept, Release(i), left);
  }

  /** From executing to finished. */
  lemma SoloStamps(codec: Codec, only: Option<Bytes>, start: World, w: World, i: nat)
    requires Reaches(codec, only, start, w) && In(w, i, Executing) && w.source == None && w.runs[i].held in w.locks
    requires w.content == w.runs[i].execution && ExecutedAtPayload(codec, w.content, w.runs[i].stamp).Some?
    ensures var stamped := ExecutedAtPayload(codec, w.content, w.runs[i].stamp).value;
      Reaches(codec, only, start,
        With(w, i, w.runs[i].(phase := Finished, stamped := stamped))
          .(content := stamped, locks := Dropped(w.locks, w.runs[i].held)))
  {
    var stamped := ExecutedAtPayload(codec, w.content, w.runs[i].stamp).value;
    SoloRewrites(codec, only, start, w, i);
    var r := w.runs[i].(phase := Stamped, stamped := stamped);
    var done := With(w, i, r).(content := stamped);
    SoloLeaves(codec, only, start, done, i);
    assert With(done, i, r.(phase := Finished)).runs == With(w, i, r.(phase := Finished)).runs;
  }

  lemma TakenAndDropped(locks: map<nat, Held>, r: Run, at: nat)
    requires CanTake(locks, r, at) && (at in locks ==> locks[at].tokens > 0)
    ensures Dropped(Taken(locks, r.thread, at), at) == locks
  {
  }

  /** A run alone on a cleared plan may finish, and then its stamped plan is the source. */
  lemma SoloFinishes(codec: Codec, only: Option<Bytes>, start: World, w: World, i: nat, at: nat)
    requires Reaches(codec, only, start, w) && In(w, i, Reserved) && w.source == None
    requires CanTake(w.locks, w.runs[i], at) && (at in w.locks ==> w.locks[at].tokens > 0)
    requires w.content == w.runs[i].reserved && Carries(codec, w.content, "") && Faithful(codec)
    ensures var stamped := ExecutedAtPayload(codec, w.content, w.runs[i].stamp);
      stamped.Some? && Reaches(codec, only, start,
        With(w, i, w.runs[i].(phase := Finished, held := at, execution := w.content, stamped := stamped.value))
          .(content := stamped.value))
  {
    var r := w.runs[i].(phase := Executing, held := at, execution := w.content);
    var executing := With(w, i, r).(locks := Taken(w.locks, r.thread, at));
    SoloExecutes(codec, only, start, w, i, at);
    SoloStamps(codec, only, start, executing, i);
    TakenAndDropped(w.locks, w.runs[i], at);
    var stamped := ExecutedAtPayload(codec, w.content, r.stamp).value;
    assert With(executing, i, r.(phase := Finished, stamped := stamped)).runs
        == With(w, i, r.(phase := Finished, stamped := stamped)).runs;
  }

  // ---------------------------------------------------------------- two runs at once

  function Fresh(thread: nat, root: nat, stamp: string): Run {
    Run(thread, root, stamp, Idle, 0, [], [], [])
  }

  /** The lock the second of two runs ends up with: the first one's on the same thread, else that of its own root. */
  function SecondLock(thread: nat, root: nat): nat {
    if thread == 0 then 0 else root
  }

  /**
   A run is executing on a cleared plan with the lock of root 0, and another one of the
   given thread and root has reserved the same plan.
   */
  lemma OuterExecutes(codec: Codec, reserved: Bytes, outer: string, inner: string, thread: nat, root: nat)
      returns (start: World, w: World)
    requires Carries(codec, reserved, "")
    ensures start == World(reserved, map[], None, false, [Fresh(0, 0, outer), Fresh(thread, root, inner)])
    ensures Reaches(codec, Some(reserved), start, w)
    ensures w == World(reserved, map[0 := Held(0, 1)], None, false,
      [Run(0, 0, outer, Executing, 0, reserved, reserved, []), Run(thread, root, inner, Reserved, 0, reserved, [], [])])
  {
    start := World(reserved, map[], None, false, [Fresh(0, 0, outer), Fresh(thread, root, inner)]);
    var only := Some(reserved);
    Stay(codec, only, start);
    SoloReserves(codec, only, start, start, 0);
    var w1 := With(start, 0, Fresh(0, 0, outer).(phase := Reserved, reserved := reserved));
    SoloExecutes(codec, only, start, w1, 0, 0);
    var w2 := With(w1, 0, w1.runs[0].(phase := Executing, execution := reserved)).(locks := map[0 := Held(0, 1)]);
    SoloReserves(codec, only, start, w2, 1);
    w := With(w2, 1, Fresh(thread, root, inner).(phase := Reserved, reserved := reserved));
  }

  /** On one thread, or from two roots, the second run gets a lock. */
  lemma SecondCanTake(locks: map<nat, Held>, r: Run)
    requires locks == map[0 := Held(0, 1)] && (r.thread == 0 || r.root != 0)
    ensures CanTake(locks, r, SecondLock(r.thread, r.root))
  {
    if r.thread == 0 {
      assert 0 in locks && locks[0].thread == 0;
    }
  }

  /**
   On a plan that is cleared already, the clear does not look at the file: a run of the
   same thread, or one from another root with another lock, may finish and stamp while
   the first run executes, and the first one goes on executing although the source
   carries a stamp. It can then not stamp.
   */
  lemma SecondFinishes(codec: Codec, reserved: Bytes, outer: string, inner: string, thread: nat, root: nat)
      returns (worlds: seq<World>)
    requires Faithful(codec) && Carries(codec, reserved, "") && outer != "" && inner != "" && outer != inner
    requires thread == 0 || root != 0
    ensures HistoryOn(codec, reserved, worlds)
    ensures var w := worlds[|worlds| - 1];
      && In(w, 0, Executing) && w.runs[0].thread == 0 && w.runs[0].root == w.runs[0].held == 0
      && In(w, 1, Finished) && w.runs[1].thread == thread && w.runs[1].root == root
      && w.runs[1].held == SecondLock(thread, root)
      && Carries(codec, w.content, inner) && !Enabled(codec, w, Begin(0))
  {
    var start, entered := OuterExecutes(codec, reserved, outer, inner, thread, root);
    var at := SecondLock(thread, root);
    SecondCanTake(entered.locks, entered.runs[1]);
    SoloFinishes(codec, Some(reserved), start, entered, 1, at);
    PayloadCarriesStamp(codec, reserved, inner);
    var stamped := ExecutedAtPayload(codec, reserved, inner).value;
    var w := World(stamped, map[0 := Held(0, 1)], None, false,
      [Run(0, 0, outer, Executing, 0, reserved, reserved, []),
       Run(thread, root, inner, Finished, at, reserved, reserved, stamped)]);
    assert w == With(entered, 1, entered.runs[1].(phase := Finished, held := at, execution := reserved, stamped := stamped))
      .(content := stamped);
    worlds := ReachedIsHistoryOn(codec, reserved, start, w);
  }

  /** In the last world two runs are past their clear at once, with one lock or with two. */
  ghost predicate TwoPastClear(codec: Codec, reserved: Bytes, worlds: seq<World>, i: nat, j: nat, shared: bool) {
    HistoryOn(codec, reserved, worlds)
    && var runs := worlds[|worlds| - 1].runs;
    i < j < |runs| && UsesClear(runs[i].phase) && UsesClear(runs[j].phase)
    && (shared <==> runs[i].held == runs[j].held)
  }

  lemma TwoMayExecute(codec: Codec, reserved: Bytes, shared: bool) returns (worlds: seq<World>)
    requires Carries(codec, reserved, "")
    ensures TwoPastClear(codec, reserved, worlds, 0, 1, shared)
  {
    var thread, root := if shared then 0 else 1, 1;
    var start, entered := OuterExecutes(codec, reserved, "1", "2", thread, root);
    var at := SecondLock(thread, root);
    SecondCanTake(entered.locks, entered.runs[1]);
    SoloExecutes(codec, Some(reserved), start, entered, 1, at);
    var w := With(entered, 1, entered.runs[1].(phase := Executing, held := at, execution := reserved))
      .(locks := Taken(entered.locks, thread, at));
    worlds := ReachedIsHistoryOn(codec, reserved, start, w);
  }

  /**
   Two runs can be past their clear at once exactly when the reserved plan is cleared
   already: on one thread, where they share a lock, and on two, where they have two locks.
   */
  lemma TwoPastClearIffCleared(codec: Codec, reserved: Bytes, shared: bool)
    requires Faithful(codec)
    ensures (exists worlds, i, j :: TwoPastClear(codec, reserved, worlds, i, j, shared)) <==> Carries(codec, reserved, "")
  {
    if Carries(codec, reserved, "") {
      var worlds := TwoMayExecute(codec, reserved, shared);
    } else if worlds, i, j :| TwoPastClear(codec, reserved, worlds, i, j, shared) {
      ExecutesAlone(codec, reserved, worlds, |worlds| - 1, i, j);
    }
  }

  /** The runs of one thread that works for roots 0 and 1, and a run of another thread for root 1. */
  function Entered(reserved: Bytes, phase: Phase, third: Run): seq<Run> {
    [Run(0, 0, "1", Executing, 0, reserved, reserved, []),
     Run(0, 1, "2", phase, 0, reserved, if phase.Executing? then reserved else [], []), third]
  }

  /** The first thread executes for both roots, with the lock of root 0. */
  lemma BothRootsExecute(codec: Codec, reserved: Bytes) returns (start: World)
    requires Carries(codec, reserved, "")
    ensures start == World(reserved, map[], None, false, [Fresh(0, 0, "1"), Fresh(0, 1, "2"), Fresh(1, 1, "3")])
    ensures Reaches(codec, Some(reserved), start,
      World(reserved, map[0 := Held(0, 2)], None, false, Entered(reserved, Executing, Fresh(1, 1, "3"))))
  {
    var only, third := Some(reserved), Fresh(1, 1, "3");
    start := World(reserved, map[], None, false, [Fresh(0, 0, "1"), Fresh(0, 1, "2"), third]);
    Stay(codec, only, start);
    SoloReserves(codec, only, start, start, 0);
    var w1 := With(start, 0, start.runs[0].(phase := Reserved, reserved := reserved));
    SoloExecutes(codec, only, start, w1, 0, 0);
    var w2 := With(w1, 0, w1.runs[0].(phase := Executing, execution := reserved)).(locks := map[0 := Held(0, 1)]);
    SoloReserves(codec, only, start, w2, 1);
    var w3 := World(reserved, map[0 := Held(0, 1)], None, false, Entered(reserved, Reserved, third));
    assert w3 == With(w2, 1, w2.runs[1].(phase := Reserved, reserved := reserved));
    SecondCanTake(w3.locks, w3.runs[1]);
    SoloExecutes(codec, only, start, w3, 1, 0);
    assert Taken(w3.locks, 0, 0) == map[0 := Held(0, 2)];
    assert With(w3, 1, w3.runs[1].(phase := Executing, held := 0, execution := reserved)).runs
        == Entered(reserved, Executing, third);
  }

  /**
   The lock that a thread has is shared whatever the root: a thread that works for two
   roots leaves the lock of the second one free, and then runs of one root execute
   together on two threads.
   */
  lemma OneRootTwoLocks(codec: Codec, reserved: Bytes) returns (worlds: seq<World>)
    requires Carries(codec, reserved, "")
    ensures HistoryOn(codec, reserved, worlds)
    ensures var w := worlds[|worlds| - 1];
      && In(w, 1, Executing) && In(w, 2, Executing) && w.runs[1].root == w.runs[2].root == 1
      && w.runs[1].thread != w.runs[2].thread && w.runs[1].held != w.runs[2].held
  {
    var only := Some(reserved);
    var start := BothRootsExecute(codec, reserved);
    var w4 := World(reserved, map[0 := Held(0, 2)], None, false, Entered(reserved, Executing, Fresh(1, 1, "3")));
    SoloReserves(codec, only, start, w4, 2);
    var w5 := With(w4, 2, w4.runs[2].(phase := Reserved, reserved := reserved));
    SoloExecutes(codec, only, start, w5, 2, 1);
    var w6 := With(w5, 2, w5.runs[2].(phase := Executing, held := 1, execution := reserved))
      .(locks := Taken(w5.locks, 1, 1));
    worlds := ReachedIsHistoryOn(codec, reserved, start, w6);
  }

  // ---------------------------------------------------------------- a third run clears the stamp

  lemma SoloFails(codec: Codec, only: Option<Bytes>, start: World, w: World, i: nat)
    requires Reaches(codec, only, start, w) && In(w, i, Cleared) && w.runs[i].held in w.locks
    ensures Reaches(codec, only, start,
      With(w, i, w.runs[i].(phase := Gone)).(locks := Dropped(w.locks, w.runs[i].held)))
  {
    var leaving := With(w, i, w.runs[i].(phase := Leaving));
    Advance(codec, only, start, w, Fail(i), leaving);
    WithTwice(w, i, w.runs[i].(phase := Leaving), w.runs[i].(phase := Gone));
    Advance(codec, only, start, leaving, Release(i),
            With(w, i, w.runs[i].(phase := Gone)).(locks := Dropped(w.locks, w.runs[i].held)));
  }

  /** Run `i`, which reserved a stamped plan, clears the stamp and then fails. */
  lemma SoloClears(codec: Codec, only: Option<Bytes>, start: World, w: World, i: nat, cleared: Bytes)
    requires Reaches(codec, only, start, w) && In(w, i, Reserved) && w.source == None && w.locks == map[]
    requires w.content == w.runs[i].reserved && ExecutedAtPayload(codec, w.content, "") == Some(cleared)
    requires cleared != w.content
    ensures Reaches(codec, only, start,
      With(w, i, w.runs[i].(phase := Gone, held := w.runs[i].root, execution := cleared)).(content := cleared))
  {
    var at := w.runs[i].root;
    var r := w.runs[i].(held := at, execution := cleared);
    SoloAdmitted(codec, only, start, w, i, at);
    var admitted := With(w, i, w.runs[i].(phase := Admitted, held := at)).(locks := Taken(w.locks, r.thread, at));
    SoloRewrites(codec, only, start, admitted, i);
    var done := With(w, i, r.(phase := Cleared)).(content := cleared, locks := Taken(w.locks, r.thread, at));
    assert With(admitted, i, r.(phase := Cleared)).runs == done.runs;
    SoloFails(codec, only, start, done, i);
    TakenAndDropped(w.locks, w.runs[i], at);
    assert With(done, i, r.(phase := Gone)).runs == With(w, i, r.(phase := Gone)).runs;
  }

  /** Two runs reserve the plan and the first one finishes. */
  lemma FirstFinishes(codec: Codec, reserved: Bytes, a: string, b: string, c: string) returns (start: World, w: World)
    requires Faithful(codec) && Carries(codec, reserved, "")
    ensures start == World(reserved, map[], None, false, [Fresh(0, 0, a), Fresh(1, 0, b), Fresh(2, 0, c)])
    ensures ExecutedAtPayload(codec, reserved, a).Some? && Reaches(codec, None, start, w)
    ensures var stamped := ExecutedAtPayload(codec, reserved, a).value;
      w == World(stamped, map[], None, false,
        [Run(0, 0, a, Finished, 0, reserved, reserved, stamped), Run(1, 0, b, Reserved, 0, reserved, [], []),
         Fresh(2, 0, c)])
  {
    start := World(reserved, map[], None, false, [Fresh(0, 0, a), Fresh(1, 0, b), Fresh(2, 0, c)]);
    Stay(codec, None, start);
    SoloReserves(codec, None, start, start, 0);
    var w1 := With(start, 0, Fresh(0, 0, a).(phase := Reserved, reserved := reserved));
    SoloReserves(codec, None, start, w1, 1);
    var w2 := With(w1, 1, Fresh(1, 0, b).(phase := Reserved, reserved := reserved));
    SoloFinishes(codec, None, start, w2, 0, 0);
    var stamped := ExecutedAtPayload(codec, reserved, a).value;
    w := With(w2, 0, w2.runs[0].(phase := Finished, execution := reserved, stamped := stamped)).(content := stamped);
  }

  /** The third run reserves the stamped plan and clears it. */
  lemma ThirdClears(codec: Codec, rest: string, start: World, w: World, a: string, stamped: Bytes)
    requires Faithful(codec) && a != "" && Reaches(codec, None, start, w) && |w.runs| == 3 && In(w, 2, Idle)
    requires w.content == stamped && w.locks == map[] && w.source == None
    requires Some(stamped) == ExecutedAtPayload(codec, codec.dump(Plan(Some(Text("")), rest)), a)
    ensures var reserved := codec.dump(Plan(Some(Text("")), rest));
      Reaches(codec, None, start,
        With(w, 2, w.runs[2].(phase := Gone, held := w.runs[2].root, reserved := stamped, execution := reserved)).(content := reserved))
  {
    var reserved := codec.dump(Plan(Some(Text("")), rest));
    var r := w.runs[2].(phase := Reserved, reserved := stamped);
    SoloReserves(codec, None, start, w, 2);
    LastStampWins(codec, reserved, a, "");
    PayloadCarriesStamp(codec, reserved, a);
    SoloClears(codec, None, start, With(w, 2, r), 2, reserved);
    WithTwice(w, 2, r, r.(phase := Gone, held := r.root, execution := reserved));
  }

  /**
   On every cleared plan as the program prints it: two runs that reserved it both
   finish with their stamp, because a third run reserved the plan as the first one
   stamped it and cleared that stamp.
   */
  lemma BothFinishWhenRecleared(codec: Codec, rest: string, a: string, b: string, c: string) returns (worlds: seq<World>)
    requires Faithful(codec) && a != "" && b != "" && c != "" && a != b && a != c && b != c
    ensures var reserved := codec.dump(Plan(Some(Text("")), rest));
      && IsHistory(codec, worlds) && FreshStamps(codec, worlds[0].runs, reserved)
      && var w := worlds[|worlds| - 1];
      && !w.torn && |w.runs| == 3 && In(w, 0, Finished) && In(w, 1, Finished)
      && w.runs[0].reserved == w.runs[1].reserved == reserved && w.runs[2].reserved == w.runs[0].stamped
  {
    var reserved := codec.dump(Plan(Some(Text("")), rest));
    var start, w1 := FirstFinishes(codec, reserved, a, b, c);
    var stamped := ExecutedAtPayload(codec, reserved, a).value;
    ThirdClears(codec, rest, start, w1, a, stamped);
    var w2 := With(w1, 2, w1.runs[2].(phase := Gone, held := 0, reserved := stamped, execution := reserved)).(content := reserved);
    SoloFinishes(codec, None, start, w2, 1, 0);
    var second := ExecutedAtPayload(codec, reserved, b).value;
    var w3 := With(w2, 1, w2.runs[1].(phase := Finished, execution := reserved, stamped := second)).(content := second);
    worlds := ReachedIsHistory(codec, start, w3);
  }
}
