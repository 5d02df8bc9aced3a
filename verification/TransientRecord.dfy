/**
 * The durable record of one transient execution and the locked blocks that rewrite it.
 *
 * Every block reads the whole record under the state lock and writes it back, so a block is
 * a function on records.  The class at the end updates the fields in place, the way the
 * blocks do, and is proved against that function.
 */
module TransientRecord {
  import opened Common

  datatype Status =
    | Prepared | Scheduled | SubmissionUnknown | Running
    | Succeeded | Failed | TimedOut | Skipped | Errored | Cancelled | Abandoned

  datatype Acceptance = AwaitingAnswer | Accepted | Unconfirmed

  datatype Cleanup = CleanupPending | Delegated | CleanupFailed | Collected

  /** What the run history says about one run. */
  datatype Run = Run(status: Status, exitCode: Option<int>)

  datatype Record = Record(
    status: Status,
    acceptance: Acceptance,
    cleanup: Cleanup,
    claimed: bool,
    cancelRequested: bool,
    exitCode: Option<int>,
    finishedAt: Option<int>)

  predicate Terminal(status: Status) {
    !status.Prepared? && !status.Scheduled? && !status.SubmissionUnknown? && !status.Running?
  }

  lemma TerminalMeans(status: Status)
    ensures Terminal(status) <==>
      status in {Succeeded, Failed, TimedOut, Skipped, Errored, Cancelled, Abandoned}
  {}

  /** The record submit writes before it contacts the scheduler. */
  const FRESH := Record(Prepared, AwaitingAnswer, CleanupPending, false, false, None, None)

  /** One value for each locked block, with what the block learnt outside the record. */
  datatype Block =
    | Submit(ok: bool)
    | Claim
    | Start(interrupted: bool)
    | Report(run: Run)
    | Break
    | Recover(latest: Option<Run>)
    | AskCancel
    | Collect(latest: Option<Run>, absent: bool, cancel: bool)
    | Delegate
    | FailCleanup

  predicate Claimable(d: Record) {
    !d.claimed && !Terminal(d.status) && !d.cancelRequested
  }

  predicate Starts(d: Record, interrupted: bool) {
    !interrupted && !d.cancelRequested
  }

  function Recovered(d: Record, latest: Option<Run>, cancel: bool, now: int): Record {
    if Terminal(d.status) then d
    else if latest.Some? && Terminal(latest.value.status) then
      d.(status := latest.value.status, exitCode := latest.value.exitCode, finishedAt := Some(now))
    else
      d.(status := if cancel then Cancelled else Abandoned, exitCode := None, finishedAt := Some(now))
  }

  function Apply(d: Record, b: Block, now: int): Record {
    match b
    case Submit(ok) =>
      d.(status := if ok then Scheduled else SubmissionUnknown,
         acceptance := if ok then Accepted else Unconfirmed)
    case Claim => if Claimable(d) then d.(claimed := true) else d
    case Start(interrupted) =>
      if Starts(d, interrupted) then d.(status := Running)
      else d.(status := Cancelled, exitCode := None, finishedAt := Some(now))
    case Report(run) => d.(status := run.status, exitCode := run.exitCode, finishedAt := Some(now))
    case Break => d.(status := Errored, exitCode := Some(1), finishedAt := Some(now))
    case Recover(latest) => Recovered(d, latest, d.cancelRequested, now)
    case AskCancel => d.(cancelRequested := true)
    case Collect(latest, absent, cancel) =>
      if absent then Recovered(d, latest, cancel, now).(cleanup := Collected)
      else if cancel || Terminal(d.status) then d.(cleanup := CleanupPending)
      else d
    case Delegate => d.(cleanup := Delegated)
    case FailCleanup => d.(cleanup := CleanupFailed)
  }

  /** Blocks run only by the wrapper that owns the claim. */
  predicate OwnersBlock(b: Block) {
    b.Start? || b.Report? || b.Break?
  }

  /** No block withdraws a claim or a cancellation request, or forgets the scheduler's answer. */
  lemma Ratchet(d: Record, b: Block, now: int)
    ensures var d' := Apply(d, b, now);
      && (d.claimed ==> d'.claimed)
      && (d.cancelRequested ==> d'.cancelRequested)
      && (!d.acceptance.AwaitingAnswer? ==> !d'.acceptance.AwaitingAnswer?)
      && (!d.claimed && d'.claimed ==> b.Claim? && !Terminal(d.status) && !d.cancelRequested)
  {}

  /**
   * Only submit and the claim's owner can rewrite a terminal outcome; everyone else keeps its
   * status, exit code and completion time, and marks an execution collected only when it is terminal.
   */
  lemma OthersKeepOutcome(d: Record, b: Block, now: int)
    requires !b.Submit? && !OwnersBlock(b)
    ensures var d' := Apply(d, b, now);
      && (Terminal(d.status) ==>
            d'.status == d.status && d'.exitCode == d.exitCode && d'.finishedAt == d.finishedAt)
      && (d'.cleanup.Collected? && !d.cleanup.Collected? ==> Terminal(d'.status))
  {}

  function Latest(history: seq<Run>): Option<Run> {
    if history == [] then None else Some(history[|history| - 1])
  }

  /** The record file as the locked blocks see it: a dictionary updated in place, then written back. */
  class RecordFile {
    var status: Status
    var acceptance: Acceptance
    var cleanup: Cleanup
    var claimed: bool
    var cancelRequested: bool
    var exitCode: Option<int>
    var finishedAt: Option<int>

    function Value(): Record
      reads this
    {
      Record(status, acceptance, cleanup, claimed, cancelRequested, exitCode, finishedAt)
    }

    constructor ()
      ensures Value() == FRESH
    {
      status, acceptance, cleanup := Prepared, AwaitingAnswer, CleanupPending;
      claimed, cancelRequested, exitCode, finishedAt := false, false, None, None;
    }

    method RecordSubmission(ok: bool)
      modifies this
      ensures Value() == Apply(old(Value()), Submit(ok), 0)
    {
      acceptance := if ok then Accepted else Unconfirmed;
      status := if ok then Scheduled else SubmissionUnknown;
    }

    method TryClaim() returns (mine: bool)
      modifies this
      ensures mine == Claimable(old(Value()))
      ensures Value() == Apply(old(Value()), Claim, 0)
    {
      if claimed || Terminal(status) || cancelRequested {
        return false;
      }
      claimed := true;
      return true;
    }

    method BeginOrCancel(interrupted: bool, now: int) returns (shouldRun: bool)
      modifies this
      ensures shouldRun == Starts(old(Value()), interrupted)
      ensures Value() == Apply(old(Value()), Start(interrupted), now)
    {
      if interrupted || cancelRequested {
        status, exitCode, finishedAt := Cancelled, None, Some(now);
        shouldRun := false;
      } else {
        status := Running;
        shouldRun := true;
      }
    }

    method RecordResult(run: Run, now: int)
      modifies this
      ensures Value() == Apply(old(Value()), Report(run), now)
    {
      status, exitCode, finishedAt := run.status, run.exitCode, Some(now);
    }

    method RecordError(now: int)
      modifies this
      ensures Value() == Apply(old(Value()), Break, now)
    {
      status, exitCode, finishedAt := Errored, Some(1), Some(now);
    }

    method RecoverOutcome(history: seq<Run>, cancel: bool, now: int)
      modifies this
      ensures Value() == Recovered(old(Value()), Latest(history), cancel, now)
    {
      if Terminal(status) {
        return;
      }
      if |history| > 0 && Terminal(history[|history| - 1].status) {
        status, exitCode := history[|history| - 1].status, history[|history| - 1].exitCode;
      } else {
        status, exitCode := if cancel then Cancelled else Abandoned, None;
      }
      finishedAt := Some(now);
    }

    method FinishHook(history: seq<Run>, now: int)
      modifies this
      ensures Value() == Apply(old(Value()), Recover(Latest(history)), now)
    {
      RecoverOutcome(history, cancelRequested, now);
    }

    method RequestCancel()
      modifies this
      ensures Value() == Apply(old(Value()), AskCancel, 0)
    {
      cancelRequested := true;
    }

    method SettleRegistration(history: seq<Run>, timer: bool, service: bool, cancel: bool, now: int)
      modifies this
      ensures Value() == Apply(old(Value()), Collect(Latest(history), !timer && !service, cancel), now)
    {
      if !timer && !service {
        RecoverOutcome(history, cancel, now);
        cleanup := Collected;
      } else if cancel || Terminal(status) {
        cleanup := CleanupPending;
      }
    }

    method RecordCleanup(failed: bool)
      modifies this
      ensures Value() == Apply(old(Value()), if failed then FailCleanup else Delegate, 0)
    {
      cleanup := if failed then CleanupFailed else Delegated;
    }
  }
}
