/** The audit of one plan run: reserved bytes, bound source states, and the log of its steps. */
module PlanAudit {
  import opened Common
  import opened PosixFile

  /** A step of the plan pipeline with its exit code; `Note` records a source that could not be rewritten. */
  datatype Step =
    | ExecutionLock(code: int) | Preflight(code: int) | Gates(code: int) | ClearStamp(code: int)
    | CommitApply(code: int) | SyncApply(repo: string, code: int) | PostSyncCommit(code: int)
    | Push(repo: string, code: int) | StampPlan(code: int) | Note(code: int)

  /** The same step with code 0. */
  function Zeroed(s: Step): Step {
    match s
    case ExecutionLock(_) => ExecutionLock(0)
    case Preflight(_) => Preflight(0)
    case Gates(_) => Gates(0)
    case ClearStamp(_) => ClearStamp(0)
    case CommitApply(_) => CommitApply(0)
    case SyncApply(repo, _) => SyncApply(repo, 0)
    case PostSyncCommit(_) => PostSyncCommit(0)
    case Push(repo, _) => Push(repo, 0)
    case StampPlan(_) => StampPlan(0)
    case Note(_) => Note(0)
  }

  /** The steps of a log without the notes. */
  function StepsOf(log: seq<Step>): seq<Step> {
    if log == [] then []
    else
      var front, last := StepsOf(log[..|log| - 1]), log[|log| - 1];
      if last.Note? then front else front + [last]
  }

  lemma StepsOfAppend(log: seq<Step>, s: Step)
    ensures StepsOf(log + [s]) == if s.Note? then StepsOf(log) else StepsOf(log) + [s]
  {
    assert (log + [s])[..|log|] == log;
  }

  class PlanAuditSink {
    const reserved: seq<byte>
    var log: seq<Step>
    var bound: seq<seq<byte>>
    var finalized: Option<int>

    constructor (reserved: seq<byte>)
      ensures this.reserved == reserved && log == [] && bound == [] && finalized == None
    {
      this.reserved := reserved;
      log, bound, finalized := [], [], None;
    }

    method Append(s: Step) returns (ok: bool)
      modifies this`log
      ensures log == if ok then old(log) + [s] else old(log)
    {
      ok := *;
      if ok {
        log := log + [s];
      }
    }

    method BindSourceStateBytes(bytes: seq<byte>) returns (ok: bool)
      modifies this`bound
      ensures bound == if ok then old(bound) + [bytes] else old(bound)
    {
      ok := *;
      if ok {
        bound := bound + [bytes];
      }
    }

    method Finalize(code: int) returns (ok: bool)
      modifies this`finalized
      ensures finalized == if ok then Some(code) else old(finalized)
    {
      ok := *;
      if ok {
        finalized := Some(code);
      }
    }
  }
}
