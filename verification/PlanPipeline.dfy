/**
 One plan run from lock to stamp: every step is appended to the audit log, the first
 failure ends the run, and a stamp whose audit fails is taken back. Stages and audit
 calls choose their outcomes, so the contracts hold for every failure.
 */
module PlanPipeline {
  import opened Common
  import opened PlanAudit
  import opened PlanPayload
  import opened PlanRewrite
  import opened PosixFile

  /** What the run says about the plan file besides its exit code. */
  datatype Report = Clean | RestoreFailed | SourceCorrupt | SourceUnconfirmed

  function ReportOf(r: Outcome): Report {
    if r.Corrupt? then SourceCorrupt else if r.Unconfirmed? then SourceUnconfirmed else Clean
  }

  // ---------------------------------------------------------------- the trace and the log

  predicate AllZero(done: seq<Step>) {
    forall i :: 0 <= i < |done| ==> done[i].code == 0
  }

  /** Only the last step may have failed. */
  predicate StopsAtFailure(done: seq<Step>) {
    forall i :: 0 <= i < |done| - 1 ==> done[i].code == 0
  }

  function Syncs(repos: seq<string>): seq<Step> {
    seq(|repos|, i requires 0 <= i < |repos| => SyncApply(repos[i], 0))
  }

  function Pushes(repos: seq<string>): seq<Step> {
    seq(|repos|, i requires 0 <= i < |repos| => Push(repos[i], 0))
  }

  /** The trace of the stages that commit and sync. */
  function ChangeSteps(repos: seq<string>, postSync: bool): seq<Step> {
    [CommitApply(0)] + Syncs(repos) + PostSteps(postSync)
  }

  function PostSteps(postSync: bool): seq<Step> {
    if postSync then [PostSyncCommit(0)] else []
  }

  /** The stages between clearing and stamping. */
  function StageSteps(repos: seq<string>, changes: bool, postSync: bool): seq<Step> {
    StepsIfChanged(repos, changes, postSync) + Pushes(repos)
  }

  function StepsIfChanged(repos: seq<string>, changes: bool, postSync: bool): seq<Step> {
    if changes then ChangeSteps(repos, postSync) else []
  }

  const PREPARATION := [ExecutionLock(0), Gates(0), ClearStamp(0)]

  /** The whole trace of a run that succeeds. */
  function CompleteTrace(repos: seq<string>, changes: bool, postSync: bool): seq<Step> {
    PREPARATION + StageSteps(repos, changes, postSync) + [StampPlan(0)]
  }

  /** Step `i` of the trace. */
  predicate Stands(trace: seq<Step>, i: int, step: Step) {
    0 <= i < |trace| && trace[i] == step
  }

  /** The steps stand in the trace from `at` on. */
  predicate StandAt(trace: seq<Step>, at: nat, steps: seq<Step>) {
    at + |steps| <= |trace| && trace[at..at + |steps|] == steps
  }

  lemma StandParts(trace: seq<Step>, at: nat, a: seq<Step>, b: seq<Step>)
    requires StandAt(trace, at, a + b)
    ensures StandAt(trace, at, a) && StandAt(trace, at + |a|, b)
  {
    assert trace[at..at + |a + b|][..|a|] == trace[at..at + |a|];
    assert trace[at..at + |a + b|][|a|..] == trace[at + |a|..at + |a| + |b|];
  }

  lemma StandEach(trace: seq<Step>, at: nat, steps: seq<Step>)
    requires StandAt(trace, at, steps)
    ensures forall i :: 0 <= i < |steps| ==> Stands(trace, at + i, steps[i])
  {
  }

  /** The syncs of all repositories, in order. */
  predicate SyncsFrom(trace: seq<Step>, at: nat, repos: seq<string>) {
    forall i :: 0 <= i < |repos| ==> Stands(trace, at + i, SyncApply(repos[i], 0))
  }

  /** The pushes of all repositories, in order. */
  predicate PushesFrom(trace: seq<Step>, at: nat, repos: seq<string>) {
    forall i :: 0 <= i < |repos| ==> Stands(trace, at + i, Push(repos[i], 0))
  }

  lemma SyncsStand(trace: seq<Step>, at: nat, repos: seq<string>)
    requires StandAt(trace, at, Syncs(repos))
    ensures SyncsFrom(trace, at, repos)
  {
    StandEach(trace, at, Syncs(repos));
    forall i | 0 <= i < |repos| ensures Stands(trace, at + i, SyncApply(repos[i], 0)) {
      assert Syncs(repos)[i] == SyncApply(repos[i], 0);
    }
  }

  lemma ChangesStand(trace: seq<Step>, at: nat, repos: seq<string>, postSync: bool)
    requires StandAt(trace, at, ChangeSteps(repos, postSync))
    ensures Stands(trace, at, CommitApply(0))
    ensures SyncsFrom(trace, at + 1, repos)
    ensures postSync ==> Stands(trace, at + 1 + |repos|, PostSyncCommit(0))
  {
    StandParts(trace, at, [CommitApply(0)] + Syncs(repos), PostSteps(postSync));
    StandParts(trace, at, [CommitApply(0)], Syncs(repos));
    StandEach(trace, at, [CommitApply(0)]);
    SyncsStand(trace, at + 1, repos);
    StandEach(trace, at + 1 + |repos|, PostSteps(postSync));
    assert postSync ==> PostSteps(postSync)[0] == PostSyncCommit(0);
  }

  /** The trace lists exactly the steps that the plan calls for. */
  predicate TraceIs(trace: seq<Step>, repos: seq<string>, changes: bool, postSync: bool) {
    var n := |repos|;
    var pushes := if changes then 4 + n + (if postSync then 1 else 0) else 3;
    && |trace| == pushes + n + 1
    && Stands(trace, 0, ExecutionLock(0)) && Stands(trace, 1, Gates(0)) && Stands(trace, 2, ClearStamp(0))
    && (changes ==> Stands(trace, 3, CommitApply(0)))
    && (changes ==> SyncsFrom(trace, 4, repos))
    && (changes && postSync ==> Stands(trace, 4 + n, PostSyncCommit(0)))
    && PushesFrom(trace, pushes, repos)
    && Stands(trace, pushes + n, StampPlan(0))
  }

  lemma PushesStand(trace: seq<Step>, at: nat, repos: seq<string>)
    requires StandAt(trace, at, Pushes(repos))
    ensures PushesFrom(trace, at, repos)
  {
    StandEach(trace, at, Pushes(repos));
    forall i | 0 <= i < |repos| ensures Stands(trace, at + i, Push(repos[i], 0)) {
      assert Pushes(repos)[i] == Push(repos[i], 0);
    }
  }

  lemma PreparationStands(trace: seq<Step>)
    requires StandAt(trace, 0, PREPARATION)
    ensures Stands(trace, 0, ExecutionLock(0)) && Stands(trace, 1, Gates(0)) && Stands(trace, 2, ClearStamp(0))
  {
    StandEach(trace, 0, PREPARATION);
    assert PREPARATION[0] == ExecutionLock(0) && PREPARATION[1] == Gates(0) && PREPARATION[2] == ClearStamp(0);
  }

  lemma TraceParts(trace: seq<Step>, first: seq<Step>, pushes: seq<Step>)
    requires trace == PREPARATION + (first + pushes) + [StampPlan(0)]
    ensures StandAt(trace, 0, PREPARATION) && StandAt(trace, 3, first) && StandAt(trace, 3 + |first|, pushes)
    ensures |trace| == 3 + |first| + |pushes| + 1 && trace[|trace| - 1] == StampPlan(0)
  {
    StandParts(trace, 0, PREPARATION + (first + pushes), [StampPlan(0)]);
    StandParts(trace, 0, PREPARATION, first + pushes);
    StandParts(trace, 3, first, pushes);
  }

  /** How many steps the changes take. */
  lemma ChangesTake(repos: seq<string>, changes: bool, postSync: bool) returns (m: nat)
    ensures m == |StepsIfChanged(repos, changes, postSync)|
    ensures m == if changes then 1 + |repos| + (if postSync then 1 else 0) else 0
  {
    m := |StepsIfChanged(repos, changes, postSync)|;
  }

  lemma TraceReads(trace: seq<Step>, m: nat, repos: seq<string>, changes: bool, postSync: bool)
    requires m == if changes then 1 + |repos| + (if postSync then 1 else 0) else 0
    requires |trace| == 3 + m + |repos| + 1 && trace[|trace| - 1] == StampPlan(0)
    requires Stands(trace, 0, ExecutionLock(0)) && Stands(trace, 1, Gates(0)) && Stands(trace, 2, ClearStamp(0))
    requires changes ==> Stands(trace, 3, CommitApply(0))
    requires changes ==> SyncsFrom(trace, 4, repos)
    requires changes && postSync ==> Stands(trace, 4 + |repos|, PostSyncCommit(0))
    requires PushesFrom(trace, 3 + m, repos)
    ensures TraceIs(trace, repos, changes, postSync)
  {
  }

  lemma TraceFrom(trace: seq<Step>, first: seq<Step>, repos: seq<string>, changes: bool, postSync: bool)
    requires first == StepsIfChanged(repos, changes, postSync)
    requires StandAt(trace, 0, PREPARATION) && StandAt(trace, 3, first) && StandAt(trace, 3 + |first|, Pushes(repos))
    requires |trace| == 3 + |first| + |repos| + 1 && trace[|trace| - 1] == StampPlan(0)
    ensures TraceIs(trace, repos, changes, postSync)
  {
    PreparationStands(trace);
    PushesStand(trace, 3 + |first|, repos);
    if changes {
      ChangesStand(trace, 3, repos, postSync);
    }
    var m := ChangesTake(repos, changes, postSync);
    TraceReads(trace, m, repos, changes, postSync);
  }

  /**
   The trace in full. Only a run with changes commits, then syncs every repository in
   order, then makes the post-sync commit if there is one; every run pushes all
   repositories in order and stamps the plan last.
   */
  lemma CompleteTraceIs(repos: seq<string>, changes: bool, postSync: bool)
    ensures TraceIs(CompleteTrace(repos, changes, postSync), repos, changes, postSync)
  {
    var trace, first := CompleteTrace(repos, changes, postSync), StepsIfChanged(repos, changes, postSync);
    TraceParts(trace, first, Pushes(repos));
    TraceFrom(trace, first, repos, changes, postSync);
  }

  /** The outside world of a run: what was performed in it, step by step. */
  class Stages {
    ghost var performed: seq<Step>

    constructor ()
      ensures performed == []
    {
      performed := [];
    }

    /** Runs an external command; any exit code may come back. */
    method Run(make: int -> Step) returns (code: int)
      modifies this
      ensures performed == old(performed) + [make(code)]
    {
      code := *;
      performed := performed + [make(code)];
    }

    /** A step of the pipeline itself. */
    ghost method Did(step: Step)
      modifies this
      ensures performed == old(performed) + [step]
    {
      performed := performed + [step];
    }
  }

  /** Between two steps of a run that goes on. */
  ghost predicate Going(audit: PlanAuditSink, stages: Stages)
    reads audit, stages
  {
    StepsOf(audit.log) == stages.performed && AllZero(stages.performed) && audit.finalized == None
  }

  /** A step has been performed and is about to be appended. */
  ghost predicate Due(audit: PlanAuditSink, stages: Stages, step: Step)
    reads audit, stages
  {
    && stages.performed == StepsOf(audit.log) + [step] && AllZero(StepsOf(audit.log)) && !step.Note?
    && audit.finalized == None
  }

  /** Why a run ended. Only `Completed` is a success. */
  datatype Cause =
    | Completed | StepFailed | EntryMissing | SourceUnreadable | SourceMoved | PlanUnreadable | StatusUnreadable
    | NotTerminated

  function LastStep(done: seq<Step>): Step
    requires done != []
  {
    done[|done| - 1]
  }

  /** All steps succeeded and are in the log. */
  ghost predicate Fine(audit: PlanAuditSink, done: seq<Step>)
    reads audit
  {
    StepsOf(audit.log) == done && AllZero(done)
  }

  /** The last step failed and is in the log; its code is the exit, except for a push that the audit could not end with. */
  ghost predicate FailedWith(audit: PlanAuditSink, done: seq<Step>, exit: int)
    reads audit
  {
    && done != [] && StepsOf(audit.log) == done && LastStep(done).code != 0
    && exit == if LastStep(done).Push? && audit.finalized == None then 2 else LastStep(done).code
  }

  /** What the trace, the log and the exit look like for each cause. */
  ghost predicate Explains(audit: PlanAuditSink, done: seq<Step>, exit: int, cause: Cause)
    reads audit
  {
    match cause
    case Completed => exit == 0 && Fine(audit, done) && audit.finalized == Some(0)
    case StepFailed => FailedWith(audit, done, exit)
    case EntryMissing =>
      && done != [] && StepsOf(audit.log) == done[..|done| - 1]
      && exit == if LastStep(done).Preflight? then 3 else 2
    case SourceUnreadable => done == [ExecutionLock(0)] && Fine(audit, done) && exit == 2
    case SourceMoved => done == [ExecutionLock(0)] && Fine(audit, done) && exit == 2
    case PlanUnreadable => done == [ExecutionLock(0)] && Fine(audit, done) && exit == 2
    case StatusUnreadable => done == [ExecutionLock(0), Gates(0)] && Fine(audit, done) && exit == 2
    case NotTerminated =>
      done != [] && LastStep(done).StampPlan? && Fine(audit, done) && exit == 2 && audit.finalized == None
  }

  /** After a run that ended with `exit`; an audit that is closed is closed with the same code. */
  ghost predicate Ended(audit: PlanAuditSink, stages: Stages, exit: int, cause: Cause)
    reads audit, stages
  {
    && StopsAtFailure(stages.performed) && Explains(audit, stages.performed, exit, cause)
    && (audit.finalized.Some? ==> audit.finalized.value == exit)
  }

  /** The steps are the first ones of the trace, whatever the code of the last one. */
  predicate Along(done: seq<Step>, trace: seq<Step>) {
    |done| <= |trace| && forall i :: 0 <= i < |done| ==> Zeroed(done[i]) == trace[i]
  }

  /** Some stage failed, or its entry did: the stages before it were run as planned. */
  ghost predicate Stopped(audit: PlanAuditSink, stages: Stages, exit: int, cause: Cause, before: seq<Step>, planned: seq<Step>)
    reads audit, stages
  {
    && Ended(audit, stages, exit, cause) && (cause.StepFailed? || cause.EntryMissing?)
    && before < stages.performed && Along(stages.performed[|before|..], planned)
  }

  lemma AlongMore(done: seq<Step>, trace: seq<Step>, more: seq<Step>)
    requires Along(done, trace)
    ensures Along(done, trace + more)
  {
  }

  lemma AlongBehind(first: seq<Step>, done: seq<Step>, trace: seq<Step>)
    requires Along(done, trace) && forall i :: 0 <= i < |first| ==> first[i].code == 0
    ensures Along(first + done, first + trace)
  {
  }

  /** Appends the step just performed. */
  method Record(audit: PlanAuditSink, step: Step, ghost stages: Stages) returns (ok: bool)
    requires Due(audit, stages, step)
    modifies audit`log
    ensures ok ==> StepsOf(audit.log) == stages.performed
    ensures ok && step.code == 0 ==> Going(audit, stages)
    ensures !ok ==> StepsOf(audit.log) == stages.performed[..|stages.performed| - 1]
    ensures StopsAtFailure(stages.performed) && stages.performed != []
  {
    StepsOfAppend(audit.log, step);
    ok := audit.Append(step);
    ghost var n := |stages.performed| - 1;
    assert stages.performed[..n] == StepsOf(old(audit.log));
  }

  // ---------------------------------------------------------------- the plan file

  ghost predicate Quiet(before: seq<Change>, after: seq<Change>) {
    Continues(before, after, {Forward, Rollback})
  }

  method ReadSource(file: PlanFile) returns (bytes: Option<Bytes>)
    requires file.Valid()
    modifies file
    ensures file.Valid() && Continues(old(file.past), file.past, {Foreign})
    ensures bytes.Some? ==> bytes.value == file.content
  {
    file.Interfere();
    var readable: bool := *;
    return if readable then Some(file.content) else None;
  }

  /** Notes in the log that the source is not what it should be. */
  method NoteSource(audit: PlanAuditSink)
    modifies audit`log
    ensures StepsOf(audit.log) == StepsOf(old(audit.log))
  {
    StepsOfAppend(audit.log, Note(2));
    var noted := audit.Append(Note(2));
  }

  /** A rewrite within the size limit; a failed one is noted in the log. */
  method RewriteAudited(file: PlanFile, audit: PlanAuditSink, expected: Bytes, replacement: Bytes)
      returns (r: Outcome, ghost seen: nat)
    requires file.Valid()
    modifies file, audit
    ensures file.Valid() && old(file.past) <= file.past
    ensures r.Applied? ==> seen in file.linked
    ensures r.Applied? ==>
      ShownBetween(old(file.past), seen, file.past, replacement, {Foreign, Forward}, {Foreign})
    ensures Quiet(old(file.past), file.past) ==> Decided(r, old(file.content), expected, replacement, file.content)
    ensures StepsOf(audit.log) == StepsOf(old(audit.log)) && audit.finalized == old(audit.finalized)
  {
    seen := 0;
    r := Untouched;
    if |expected| <= MAX_PLAN_BYTES && |replacement| <= MAX_PLAN_BYTES {
      ghost var checked: nat;
      r, checked, seen := RewriteConditionally(file, audit, expected, replacement);
    }
    if r != Applied {
      NoteSource(audit);
    }
  }

  method RestoreSource(file: PlanFile, stamped: Bytes, original: Bytes)
      returns (r: Outcome)
    requires file.Valid()
    modifies file
    ensures file.Valid() && old(file.past) <= file.past
    ensures Quiet(old(file.past), file.past) ==> Decided(r, old(file.content), stamped, original, file.content)
  {
    if |stamped| > MAX_PLAN_BYTES || |original| > MAX_PLAN_BYTES {
      return Untouched;
    }
    var result, _, _ := RewriteConditionally(file, null, stamped, original);
    r := result;
  }

  lemma QuietParts(p0: seq<Change>, p1: seq<Change>, p2: seq<Change>)
    requires Quiet(p0, p2) && p0 <= p1 <= p2
    ensures Quiet(p0, p1) && Quiet(p1, p2)
  {
  }

  /** Clears the stamp of the admitted plan, and takes that back when the log cannot say so. */
  method ClearStampForRun(file: PlanFile, audit: PlanAuditSink, stages: Stages, codec: Codec, admitted: Bytes)
      returns (ok: bool, execution: Bytes, report: Report, ghost cause: Cause)
    requires file.Valid() && Going(audit, stages)
    modifies file, audit, stages
    ensures file.Valid() && old(file.past) <= file.past
    ensures exists code :: stages.performed == old(stages.performed) + [ClearStamp(code)]
    ensures audit.finalized == None && StopsAtFailure(stages.performed)
    ensures !ok ==> Explains(audit, stages.performed, 2, cause) && (cause.StepFailed? || cause.EntryMissing?)
    ensures var cleared := ExecutedAtPayload(codec, admitted, "");
      && (cleared.None? ==> stages.performed == old(stages.performed) + [ClearStamp(2)])
      && (cleared == Some(admitted) ==> stages.performed == old(stages.performed) + [ClearStamp(0)])
    ensures ok ==> stages.performed == old(stages.performed) + [ClearStamp(0)] && Going(audit, stages) && report.Clean?
    ensures ok ==> Some(execution) == ExecutedAtPayload(codec, admitted, "")
    ensures Quiet(old(file.past), file.past) && old(file.content) == admitted && report.Clean? ==>
      file.content == if ok then execution else admitted
  {
    var cleared := ExecutedAtPayload(codec, admitted, "");
    var code, rewritten := 0, false;
    execution, report := [], Clean;
    ghost var p0 := file.past;
    if cleared.None? {
      code := 2;
    } else if cleared.value != admitted {
      var r, _ := RewriteAudited(file, audit, admitted, cleared.value);
      if r == Applied {
        rewritten, execution := true, cleared.value;
      } else {
        code, report := 2, ReportOf(r);
      }
    } else {
      execution := cleared.value;
    }
    ghost var p1 := file.past;
    stages.Did(ClearStamp(code));
    var appended := Record(audit, ClearStamp(code), stages);
    ok := appended && code == 0;
    cause := if appended then StepFailed else EntryMissing;
    if !appended && rewritten {
      var restored := RestoreSource(file, cleared.value, admitted);
      if restored == Applied {
        execution := admitted;
      } else {
        report := RestoreFailed;
      }
      if Quiet(p0, file.past) {
        QuietParts(p0, p1, file.past);
      }
    }
  }

  // ---------------------------------------------------------------- admission and stages

  /** Ends the run with `code` in the audit; a failing terminalisation is reported, not returned. */
  method Terminate(audit: PlanAuditSink, code: int, ghost stages: Stages, ghost cause: Cause)
    requires StopsAtFailure(stages.performed) && Explains(audit, stages.performed, code, cause)
    requires audit.finalized == None && !cause.NotTerminated? && !(cause.StepFailed? && LastStep(stages.performed).Push?)
    modifies audit`finalized
    ensures Ended(audit, stages, code, cause)
  {
    var terminalized := audit.Finalize(code);
  }

  /** The run is turned away: the lock is held by another run, or the plan still has placeholders. */
  method TurnAway(audit: PlanAuditSink, stages: Stages, step: Step) returns (ghost cause: Cause)
    requires Going(audit, stages) && (step == ExecutionLock(2) || step == Preflight(3))
    modifies audit`log, audit`finalized, stages
    ensures Ended(audit, stages, step.code, cause) && (cause.StepFailed? || cause.EntryMissing?)
    ensures stages.performed == old(stages.performed) + [step]
  {
    stages.Did(step);
    var noted := Record(audit, step, stages);
    cause := if noted then StepFailed else EntryMissing;
    Terminate(audit, step.code, stages, cause);
  }

  /** The lock is held: appends the entry and compares what was read with the reserved bytes. */
  method AdmitRead(audit: PlanAuditSink, stages: Stages, current: Option<Bytes>) returns (admitted: bool, ghost cause: Cause)
    requires Going(audit, stages) && stages.performed == []
    modifies audit`log, audit`finalized, stages
    ensures stages.performed == [ExecutionLock(0)]
    ensures admitted ==> Going(audit, stages) && current == Some(audit.reserved)
    ensures !admitted ==> Ended(audit, stages, 2, cause)
    ensures !admitted ==>
      || cause.EntryMissing? || (cause.SourceUnreadable? && current.None?)
      || (cause.SourceMoved? && current.Some? && current.value != audit.reserved)
  {
    stages.Did(ExecutionLock(0));
    var appended := Record(audit, ExecutionLock(0), stages);
    cause := if !appended then EntryMissing else if current.None? then SourceUnreadable else SourceMoved;
    if appended && current == Some(audit.reserved) {
      return true, cause;
    }
    if appended {
      NoteSource(audit);
    }
    Terminate(audit, 2, stages, cause);
    admitted := false;
  }

  /** Takes the lock, appends the entry, and compares the source with the reserved bytes. */
  method AdmitSource(file: PlanFile, audit: PlanAuditSink, stages: Stages) returns (admitted: bool, ghost cause: Cause)
    requires file.Valid() && Going(audit, stages) && stages.performed == []
    modifies file, audit`log, audit`finalized, stages
    ensures file.Valid() && Continues(old(file.past), file.past, {Foreign})
    ensures admitted ==> stages.performed == [ExecutionLock(0)] && Going(audit, stages)
    ensures !admitted ==> Ended(audit, stages, 2, cause) && Along(stages.performed, [ExecutionLock(0)])
    ensures !admitted ==> cause.StepFailed? || cause.EntryMissing? || cause.SourceUnreadable? || cause.SourceMoved?
    ensures Quiet(old(file.past), file.past) ==>
      (admitted ==> file.content == audit.reserved) && (!admitted && cause.SourceMoved? ==> file.content != audit.reserved)
  {
    var locked: bool := *;
    if !locked {
      cause := TurnAway(audit, stages, ExecutionLock(2));
      return false, cause;
    }
    var current := ReadSource(file);
    admitted, cause := AdmitRead(audit, stages, current);
  }

  /** The trace up to the gates, in whose place an agent's unfilled plan is refused. */
  predicate AlongGates(done: seq<Step>) {
    Along(done, [ExecutionLock(0), Gates(0)]) || Along(done, [ExecutionLock(0), Preflight(0)])
  }

  /** Lock, revalidation of the reserved bytes, and the safety gates. */
  method AdmitRun(file: PlanFile, audit: PlanAuditSink, stages: Stages) returns (stop: Option<int>, ghost cause: Cause)
    requires file.Valid() && Going(audit, stages) && stages.performed == []
    modifies file, audit`log, audit`finalized, stages
    ensures file.Valid() && Continues(old(file.past), file.past, {Foreign})
    ensures stop.Some? ==> !cause.Completed? && Ended(audit, stages, stop.value, cause) && AlongGates(stages.performed)
    ensures stop.None? ==> stages.performed == [ExecutionLock(0), Gates(0)] && Going(audit, stages)
    ensures Quiet(old(file.past), file.past) ==>
      (stop.None? ==> file.content == audit.reserved)
      && (stop.Some? && cause.SourceMoved? ==> file.content != audit.reserved)
  {
    var admitted;
    admitted, cause := AdmitSource(file, audit, stages);
    if !admitted {
      return Some(2), cause;
    }
    var parsed: bool, placeholders: bool := *, *;
    if !parsed {
      return Some(2), PlanUnreadable;
    }
    if placeholders {
      cause := TurnAway(audit, stages, Preflight(3));
      return Some(3), cause;
    }
    stop, cause := RunRecorded(audit, stages, c => Gates(c));
    if stop.Some? {
      return;
    }
    var statusRead: bool := *;
    return if statusRead then None else Some(2), StatusUnreadable;
  }

  lemma AloneUnchangedBoth(before: seq<Change>, after: seq<Change>)
    requires Continues(before, after, {Foreign}) && Quiet(before, after)
    ensures before == after
  {
    ContinuesWithin(before, before, after, after, {Foreign}, {Forward, Rollback});
  }

  /** Runs one stage and appends it; the run goes on only when both succeed. */
  method RunRecorded(audit: PlanAuditSink, stages: Stages, make: int -> Step)
      returns (stop: Option<int>, ghost cause: Cause)
    requires Going(audit, stages)
    requires forall c :: !make(c).Note? && !make(c).Push? && !make(c).Preflight? && make(c).code == c
    requires forall c :: Zeroed(make(c)) == make(0)
    modifies audit`log, audit`finalized, stages
    ensures stop.None? ==> stages.performed == old(stages.performed) + [make(0)] && Going(audit, stages)
    ensures stop.Some? ==> Stopped(audit, stages, stop.value, cause, old(stages.performed), [make(0)])
  {
    var code := stages.Run(make);
    assert stages.performed[|old(stages.performed)|..] == [make(code)];
    var appended := Record(audit, make(code), stages);
    cause := if appended then StepFailed else EntryMissing;
    if !appended {
      return Some(2), cause;
    }
    if code != 0 {
      Terminate(audit, code, stages, cause);
      return Some(code), cause;
    }
    stop := None;
  }

  method SyncAll(audit: PlanAuditSink, stages: Stages, repos: seq<string>) returns (stop: Option<int>, ghost cause: Cause)
    requires Going(audit, stages)
    modifies audit`log, audit`finalized, stages
    ensures stop.None? ==> stages.performed == old(stages.performed) + Syncs(repos) && Going(audit, stages)
    ensures stop.Some? ==> Stopped(audit, stages, stop.value, cause, old(stages.performed), Syncs(repos))
  {
    cause := Completed;
    for i := 0 to |repos|
      invariant stages.performed == old(stages.performed) + Syncs(repos)[..i] && Going(audit, stages)
    {
      var repo := repos[i];
      ghost var done := stages.performed;
      stop, cause := RunRecorded(audit, stages, c => SyncApply(repo, c));
      if stop.Some? {
        StoppedWithin(audit, stages, stop.value, cause, old(stages.performed), done, Syncs(repos), i);
        return;
      }
    }
    stop := None;
  }

  /** A stop in the `i`-th of the planned steps. */
  lemma StoppedWithin(audit: PlanAuditSink, stages: Stages, exit: int, cause: Cause, before: seq<Step>, done: seq<Step>,
                      planned: seq<Step>, i: nat)
    requires i < |planned| && done == before + planned[..i] && forall k :: 0 <= k < |planned| ==> planned[k].code == 0
    requires Stopped(audit, stages, exit, cause, done, [planned[i]])
    ensures Stopped(audit, stages, exit, cause, before, planned)
  {
    var last := stages.performed[|done|..];
    assert stages.performed == done + last;
    assert stages.performed[|before|..] == planned[..i] + last;
    assert forall k :: 0 <= k < i ==> Zeroed(planned[k]) == planned[k];
  }

  /** A stop in the first part of the planned steps, or in the rest when the first part went well. */
  lemma StoppedEarlier(audit: PlanAuditSink, stages: Stages, exit: int, cause: Cause, before: seq<Step>,
                       first: seq<Step>, rest: seq<Step>)
    requires forall k :: 0 <= k < |first| ==> first[k].code == 0
    requires Stopped(audit, stages, exit, cause, before, first) || Stopped(audit, stages, exit, cause, before + first, rest)
    ensures Stopped(audit, stages, exit, cause, before, first + rest)
  {
    if Stopped(audit, stages, exit, cause, before, first) {
      AlongMore(stages.performed[|before|..], first, rest);
    } else {
      var last := stages.performed[|before + first|..];
      assert stages.performed == before + first + last;
      assert stages.performed[|before|..] == first + last;
      AlongBehind(first, last, rest);
    }
  }

  /** One repository after the other; a push that fails ends the audit, and a failing end overrides its code. */
  method PushAll(audit: PlanAuditSink, stages: Stages, repos: seq<string>) returns (stop: Option<int>, ghost cause: Cause)
    requires Going(audit, stages)
    modifies audit`log, audit`finalized, stages
    ensures stop.None? ==> stages.performed == old(stages.performed) + Pushes(repos) && Going(audit, stages)
    ensures stop.Some? ==> Stopped(audit, stages, stop.value, cause, old(stages.performed), Pushes(repos))
  {
    cause := Completed;
    for i := 0 to |repos|
      invariant stages.performed == old(stages.performed) + Pushes(repos)[..i] && Going(audit, stages)
    {
      var repo := repos[i];
      ghost var done := stages.performed;
      stop, cause := PushOne(audit, stages, repo);
      if stop.Some? {
        StoppedWithin(audit, stages, stop.value, cause, old(stages.performed), done, Pushes(repos), i);
        return;
      }
    }
    stop := None;
  }

  method PushOne(audit: PlanAuditSink, stages: Stages, repo: string) returns (stop: Option<int>, ghost cause: Cause)
    requires Going(audit, stages)
    modifies audit`log, audit`finalized, stages
    ensures stop.None? ==> stages.performed == old(stages.performed) + [Push(repo, 0)] && Going(audit, stages)
    ensures stop.Some? ==> Stopped(audit, stages, stop.value, cause, old(stages.performed), [Push(repo, 0)])
  {
    var code := stages.Run(c => Push(repo, c));
    assert stages.performed[|old(stages.performed)|..] == [Push(repo, code)];
    var appended := Record(audit, Push(repo, code), stages);
    cause := if appended then StepFailed else EntryMissing;
    if !appended {
      return Some(2), cause;
    }
    if code == 0 {
      return None, cause;
    }
    var terminalized := audit.Finalize(code);
    stop := Some(if terminalized then code else 2);
  }

  method CommitAndSync(audit: PlanAuditSink, stages: Stages, repos: seq<string>)
      returns (stop: Option<int>, ghost cause: Cause)
    requires Going(audit, stages)
    modifies audit`log, audit`finalized, stages
    ensures stop.None? ==>
      stages.performed == old(stages.performed) + ([CommitApply(0)] + Syncs(repos)) && Going(audit, stages)
    ensures stop.Some? ==>
      Stopped(audit, stages, stop.value, cause, old(stages.performed), [CommitApply(0)] + Syncs(repos))
  {
    ghost var before := stages.performed;
    stop, cause := RunRecorded(audit, stages, c => CommitApply(c));
    if stop.None? {
      stop, cause := SyncAll(audit, stages, repos);
    }
    if stop.Some? {
      StoppedEarlier(audit, stages, stop.value, cause, before, [CommitApply(0)], Syncs(repos));
    } else {
      assert before + [CommitApply(0)] + Syncs(repos) == before + ([CommitApply(0)] + Syncs(repos));
    }
  }

  method PostSyncIfPlanned(audit: PlanAuditSink, stages: Stages, postSync: bool)
      returns (stop: Option<int>, ghost cause: Cause)
    requires Going(audit, stages)
    modifies audit`log, audit`finalized, stages
    ensures stop.None? ==> stages.performed == old(stages.performed) + PostSteps(postSync) && Going(audit, stages)
    ensures stop.Some? ==> Stopped(audit, stages, stop.value, cause, old(stages.performed), PostSteps(postSync))
  {
    if postSync {
      stop, cause := RunRecorded(audit, stages, c => PostSyncCommit(c));
    } else {
      stop, cause := None, Completed;
      assert stages.performed == stages.performed + [];
    }
  }

  /** Commit, sync and post-sync. */
  method RunChanges(audit: PlanAuditSink, stages: Stages, repos: seq<string>, postSync: bool)
      returns (stop: Option<int>, ghost cause: Cause)
    requires Going(audit, stages)
    modifies audit`log, audit`finalized, stages
    ensures stop.None? ==> stages.performed == old(stages.performed) + ChangeSteps(repos, postSync) && Going(audit, stages)
    ensures stop.Some? ==> Stopped(audit, stages, stop.value, cause, old(stages.performed), ChangeSteps(repos, postSync))
  {
    ghost var before, first := stages.performed, [CommitApply(0)] + Syncs(repos);
    stop, cause := CommitAndSync(audit, stages, repos);
    if stop.None? {
      stop, cause := PostSyncIfPlanned(audit, stages, postSync);
    }
    if stop.Some? {
      StoppedEarlier(audit, stages, stop.value, cause, before, first, PostSteps(postSync));
    } else {
      assert before + first + PostSteps(postSync) == before + (first + PostSteps(postSync));
    }
  }

  method RunIfChanged(audit: PlanAuditSink, stages: Stages, repos: seq<string>, changes: bool, postSync: bool)
      returns (stop: Option<int>, ghost cause: Cause)
    requires Going(audit, stages)
    modifies audit`log, audit`finalized, stages
    ensures stop.None? ==>
      stages.performed == old(stages.performed) + StepsIfChanged(repos, changes, postSync) && Going(audit, stages)
    ensures stop.Some? ==>
      Stopped(audit, stages, stop.value, cause, old(stages.performed), StepsIfChanged(repos, changes, postSync))
  {
    if changes {
      stop, cause := RunChanges(audit, stages, repos, postSync);
    } else {
      stop, cause := None, Completed;
      assert stages.performed == stages.performed + [];
    }
  }

  /** Commit, sync and post-sync when there are changes, and push in any case. */
  method RunStages(audit: PlanAuditSink, stages: Stages, repos: seq<string>, changes: bool, postSync: bool)
      returns (stop: Option<int>, ghost cause: Cause)
    requires Going(audit, stages)
    modifies audit`log, audit`finalized, stages
    ensures stop.None? ==> stages.performed == old(stages.performed) + StageSteps(repos, changes, postSync)
    ensures stop.None? ==> Going(audit, stages)
    // A stop is the first stage that failed, or whose entry did, after all the stages before it.
    ensures stop.Some? ==>
      Stopped(audit, stages, stop.value, cause, old(stages.performed), StageSteps(repos, changes, postSync))
  {
    ghost var before, first := stages.performed, StepsIfChanged(repos, changes, postSync);
    ChangesSucceed(repos, changes, postSync);
    stop, cause := RunIfChanged(audit, stages, repos, changes, postSync);
    if stop.None? {
      stop, cause := PushAll(audit, stages, repos);
    }
    if stop.Some? {
      StoppedEarlier(audit, stages, stop.value, cause, before, first, Pushes(repos));
    }
  }

  lemma ChangesSucceed(repos: seq<string>, changes: bool, postSync: bool)
    ensures forall k :: 0 <= k < |StepsIfChanged(repos, changes, postSync)| ==>
      StepsIfChanged(repos, changes, postSync)[k].code == 0
  {
  }

  // ---------------------------------------------------------------- the completion stamp

  /** The file showed `bytes` at `seen`, and only other processes wrote afterwards. */
  ghost predicate StandsSince(past: seq<Change>, seen: nat, bytes: Bytes) {
    seen < |past| && ContentAt(past, seen) == bytes && Continues(past[..seen + 1], past, {Foreign})
  }

  /** The stamp step: its rewrite, its audit entry, and the undo when either the entry or the end of the audit fails. */
  method StampAndFinish(file: PlanFile, audit: PlanAuditSink, stages: Stages, codec: Codec, execution: Bytes, stamp: string)
      returns (exit: int, report: Report, ghost seen: nat, ghost cause: Cause)
    requires file.Valid() && Going(audit, stages) && Faithful(codec)
    modifies file, audit, stages
    ensures file.Valid() && old(file.past) <= file.past
    ensures Ended(audit, stages, exit, cause)
    ensures exists code :: stages.performed == old(stages.performed) + [StampPlan(code)]
    ensures ExecutedAtPayload(codec, execution, stamp).None? ==>
      stages.performed == old(stages.performed) + [StampPlan(2)]
    ensures exit == 0 ==> StepsOf(audit.log) == stages.performed == old(stages.performed) + [StampPlan(0)]
    ensures exit == 0 ==> audit.finalized == Some(0) && report.Clean?
    ensures exit == 0 ==> seen in file.linked && ExecutedAtPayload(codec, execution, stamp).Some?
    ensures exit == 0 ==>
      StandsSince(file.past, seen, ExecutedAtPayload(codec, execution, stamp).value)
    ensures exit != 0 && report.Clean? && Quiet(old(file.past), file.past) && old(file.content) == execution ==>
      file.content == execution
  {
    var stamped := ExecutedAtPayload(codec, execution, stamp);
    var code, owned := 0, false;
    report, seen := Clean, 0;
    ghost var p0 := file.past;
    if stamped.None? {
      code := 2;
    } else {
      var r;
      r, seen := RewriteAudited(file, audit, execution, stamped.value);
      owned := r == Applied;
      if !owned {
        code, report := 2, ReportOf(r);
      }
    }
    ghost var p1 := file.past;
    stages.Did(StampPlan(code));
    var appended := Record(audit, StampPlan(code), stages);
    var terminalized := false;
    if appended {
      terminalized := audit.Finalize(code);
    }
    cause := if !appended then EntryMissing else if code != 0 then StepFailed else if terminalized then Completed
             else NotTerminated;
    if terminalized {
      return code, report, seen, cause;
    }
    if owned {
      var restored := RestoreSource(file, stamped.value, execution);
      if restored != Applied {
        report := RestoreFailed;
      }
      if Quiet(p0, file.past) {
        QuietParts(p0, p1, file.past);
      }
    }
    return 2, report, seen, cause;
  }

  // ---------------------------------------------------------------- the whole run

  /** Everything before the stages: the plan is admitted and carries no execution stamp any more. */
  method PrepareRun(file: PlanFile, audit: PlanAuditSink, stages: Stages, codec: Codec)
      returns (stop: Option<int>, execution: Bytes, report: Report, ghost cause: Cause)
    requires file.Valid() && Going(audit, stages) && stages.performed == []
    modifies file, audit, stages
    ensures file.Valid() && old(file.past) <= file.past
    ensures stop.Some? ==> !cause.Completed? && Ended(audit, stages, stop.value, cause)
    ensures stop.Some? ==> Along(stages.performed, PREPARATION) || AlongGates(stages.performed)
    ensures stop.None? ==> stages.performed == PREPARATION && Going(audit, stages) && report.Clean?
    ensures stop.None? ==> ExecutedAtPayload(codec, audit.reserved, "") == Some(execution)
    ensures Quiet(old(file.past), file.past) && report.Clean? ==>
      file.content == if stop.Some? then old(file.content) else execution
    ensures Quiet(old(file.past), file.past) && stop.Some? && cause.SourceMoved? ==> old(file.content) != audit.reserved
  {
    report, execution := Clean, [];
    ghost var p0 := file.past;
    stop, cause := AdmitRun(file, audit, stages);
    ghost var p1 := file.past;
    if Quiet(p0, p1) {
      AloneUnchangedBoth(p0, p1);
    }
    if stop.Some? {
      return;
    }
    var cleared;
    ghost var why;
    cleared, execution, report, why := ClearStampForRun(file, audit, stages, codec, audit.reserved);
    if Quiet(p0, file.past) {
      QuietParts(p0, p1, file.past);
    }
    if !cleared {
      cause := why;
      Terminate(audit, 2, stages, cause);
      stop := Some(2);
    }
  }

  /** Where a run may end: somewhere on its trace, or at the preflight refusal. */
  predicate OnTrace(done: seq<Step>, repos: seq<string>, changes: bool, postSync: bool) {
    Along(done, CompleteTrace(repos, changes, postSync)) || AlongGates(done)
  }

  lemma StoppedAlong(done: seq<Step>, repos: seq<string>, changes: bool, postSync: bool)
    requires PREPARATION < done && Along(done[|PREPARATION|..], StageSteps(repos, changes, postSync))
    ensures OnTrace(done, repos, changes, postSync)
  {
    var last, planned := done[|PREPARATION|..], StageSteps(repos, changes, postSync);
    assert done == PREPARATION + last;
    AlongBehind(PREPARATION, last, planned);
    AlongMore(done, PREPARATION + planned, [StampPlan(0)]);
  }

  lemma PreparedAlong(done: seq<Step>, repos: seq<string>, changes: bool, postSync: bool)
    requires Along(done, PREPARATION) || AlongGates(done)
    ensures OnTrace(done, repos, changes, postSync)
  {
    if Along(done, PREPARATION) {
      AlongMore(done, PREPARATION, StageSteps(repos, changes, postSync));
      AlongMore(done, PREPARATION + StageSteps(repos, changes, postSync), [StampPlan(0)]);
    }
  }

  lemma StampedAlong(done: seq<Step>, repos: seq<string>, changes: bool, postSync: bool)
    requires exists code :: done == PREPARATION + StageSteps(repos, changes, postSync) + [StampPlan(code)]
    ensures OnTrace(done, repos, changes, postSync)
  {
    var planned := StageSteps(repos, changes, postSync);
    var code :| done == PREPARATION + planned + [StampPlan(code)];
    ChangesSucceed(repos, changes, postSync);
    AlongBehind(PREPARATION + planned, [StampPlan(code)], [StampPlan(0)]);
  }

  /**
   Exit 0 means every step was performed and succeeded in order, the file showed the
   stamped plan under its path, and the audit is closed with 0. Any other exit has a
   cause, which fixes its code, and comes after all the steps before it; it leaves no
   stamp of this run, unless the report says that the file could not be restored or
   confirmed.
   */
  method RunPlanPipeline(file: PlanFile, audit: PlanAuditSink, stages: Stages, codec: Codec, stamp: string,
                         repos: seq<string>, changes: bool, postSync: bool)
      returns (exit: int, report: Report, ghost seen: nat, ghost cause: Cause)
    requires file.Valid() && audit.log == [] && audit.finalized == None && stages.performed == [] && Faithful(codec)
    requires stamp != "" && !Carries(codec, file.content, stamp)
    modifies file, audit, stages
    ensures file.Valid() && Ended(audit, stages, exit, cause) && (exit == 0 <==> cause.Completed?)
    ensures OnTrace(stages.performed, repos, changes, postSync)
    ensures Quiet(old(file.past), file.past) && cause.SourceMoved? ==> old(file.content) != audit.reserved
    ensures exit == 0 ==> stages.performed == StepsOf(audit.log) == CompleteTrace(repos, changes, postSync)
    ensures exit == 0 ==> audit.finalized == Some(0) && report.Clean?
    ensures exit == 0 ==>
      seen in file.linked && seen < |file.past| && StandsSince(file.past, seen, ContentAt(file.past, seen))
    ensures exit == 0 ==> Carries(codec, ContentAt(file.past, seen), stamp)
    ensures exit != 0 && report.Clean? && Quiet(old(file.past), file.past) ==> !Carries(codec, file.content, stamp)
  {
    seen := 0;
    ghost var p0 := file.past;
    var stop, execution;
    stop, execution, report, cause := PrepareRun(file, audit, stages, codec);
    if stop.Some? {
      PreparedAlong(stages.performed, repos, changes, postSync);
      return stop.value, report, seen, cause;
    }
    PayloadCarriesStamp(codec, audit.reserved, "");
    ghost var p1 := file.past;
    stop, cause := RunStages(audit, stages, repos, changes, postSync);
    if stop.Some? {
      StoppedAlong(stages.performed, repos, changes, postSync);
      return stop.value, report, seen, cause;
    }
    exit, report, seen, cause := StampAndFinish(file, audit, stages, codec, execution, stamp);
    StampedAlong(stages.performed, repos, changes, postSync);
    if exit == 0 {
      PayloadCarriesStamp(codec, execution, stamp);
    } else if Quiet(p0, file.past) {
      QuietParts(p0, p1, file.past);
    }
  }
}
