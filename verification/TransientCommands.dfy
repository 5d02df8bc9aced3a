/**
 * What the commands and the wrapper achieve: what each block leaves in the record, told by
 * the place of the process that runs it, and what follows from a cancel and from a report.
 */
module TransientCommands {
  import opened Common
  import opened TransientRecord
  import opened TransientProtocol
  import opened TransientSafety
  import opened TransientOutcome

  // ---- What a block leaves ----

  predicate HasOutcome(d: Record, status: Status, code: Option<int>, now: int) {
    d.status == status && d.exitCode == code && d.finishedAt == Some(now)
  }

  /** The claim, the request and the scheduler's answer. */
  predicate SameMarks(d: Record, d': Record) {
    d'.claimed == d.claimed && d'.cancelRequested == d.cancelRequested && d'.acceptance == d.acceptance
  }

  /** The program steps that run a block on an existing record. */
  predicate BlockStep(s: State, e: Event, s': State) {
    && Step(s, e, s') && e.Act? && !e.eff.Quiet?
    && s.sh.record.Some? && s'.sh.record.Some?
  }

  /** Submission's answer: the scheduler accepted, or nobody knows. */
  lemma SubmissionAnswers(s: State, s': State)
    requires Step(s, Commit, s')
    ensures s.sh.phase.Holding? && s'.sh.record.Some?
    ensures var d, d' := s.sh.phase.data, s'.sh.record.value;
      && (s.sh.phase.ok ==> d'.status.Scheduled? && d'.acceptance.Accepted?)
      && (!s.sh.phase.ok ==> d'.status.SubmissionUnknown? && d'.acceptance.Unconfirmed?)
      && d'.claimed == d.claimed && d'.cancelRequested == d.cancelRequested && d'.cleanup == d.cleanup
      && d'.exitCode == d.exitCode && d'.finishedAt == d.finishedAt
  {}

  predicate WrapperAt(s: State, p: nat, pc: WrapperPc) {
    p in s.procs && s.procs[p].Wrapper? && s.procs[p].wpc == pc
  }

  /**
   * A delivered wrapper takes the claim if and only if the record is there, unclaimed, unfinished
   * and uncancelled; then only the claim changes.
   */
  lemma DeliveredClaims(s: State, e: Event, s': State)
    requires Step(s, e, s') && e.Act? && WrapperAt(s, e.p, Delivered)
    ensures WrapperAt(s', e.p, Waiting) <==>
      && s.sh.record.Some? && !s.sh.record.value.claimed && !s.sh.record.value.cancelRequested
      && s.sh.record.value.status in {Prepared, Scheduled, SubmissionUnknown, Running}
    ensures WrapperAt(s', e.p, Waiting) ==>
      s'.sh.record == Some(s.sh.record.value.(claimed := true)) && s'.sh.claimant == Some(e.p)
    ensures !WrapperAt(s', e.p, Waiting) ==> WrapperAt(s', e.p, WrapperGone) && s'.sh == s.sh
  {}

  /** The starting block runs the workload unless a signal or a request came first. */
  lemma ReadyStarts(s: State, e: Event, s': State)
    requires BlockStep(s, e, s') && WrapperAt(s, e.p, Ready)
    ensures var d, d' := s.sh.record.value, s'.sh.record.value;
      && SameMarks(d, d') && d'.cleanup == d.cleanup
      && (if s.procs[e.p].interrupted || d.cancelRequested
          then HasOutcome(d', Cancelled, None, s.sh.now) && WrapperAt(s', e.p, Closing)
          else d'.status.Running? && WrapperAt(s', e.p, Loading))
  {}

  /** A finalised run is reported as it ended, an exception as an error with exit code 1. */
  lemma WrapperReports(s: State, e: Event, s': State)
    requires BlockStep(s, e, s') && e.p in s.procs && s.procs[e.p].Wrapper?
    requires s.procs[e.p].wpc.Finalised? || s.procs[e.p].wpc.Failing?
    ensures var d, d' := s.sh.record.value, s'.sh.record.value;
      && SameMarks(d, d') && d'.cleanup == d.cleanup && WrapperAt(s', e.p, Closing)
      && (match s.procs[e.p].wpc
          case Finalised(run) => HasOutcome(d', run.status, run.exitCode, s.sh.now)
          case _ => HasOutcome(d', Errored, Some(1), s.sh.now))
  {}

  /** A block that only speaks of the cleanup. */
  predicate OnlyCleanup(d: Record, d': Record, cleanup: Cleanup) {
    d' == d.(cleanup := cleanup)
  }

  lemma WrapperCleansUp(s: State, e: Event, s': State)
    requires BlockStep(s, e, s') && e.p in s.procs && s.procs[e.p].Wrapper?
    requires s.procs[e.p].wpc.Closing? || s.procs[e.p].wpc.CleanupFailing?
    ensures OnlyCleanup(s.sh.record.value, s'.sh.record.value,
                        if s.procs[e.p].wpc.Closing? then Delegated else CleanupFailed)
  {}

  lemma HookCleansUp(s: State, e: Event, s': State)
    requires BlockStep(s, e, s') && e.p in s.procs && s.procs[e.p].Finisher? && !s.procs[e.p].fpc.HookStarted?
    ensures OnlyCleanup(s.sh.record.value, s'.sh.record.value,
                        if s.procs[e.p].fpc.HookFailing? then CleanupFailed else Delegated)
  {}

  lemma ReconcileReportsFailure(s: State, e: Event, s': State)
    requires BlockStep(s, e, s') && e.p in s.procs && s.procs[e.p].Reconciler? && s.procs[e.p].rpc.FailingCleanup?
    ensures OnlyCleanup(s.sh.record.value, s'.sh.record.value, CleanupFailed)
  {}

  // ---- Recoveries ----

  /** A finalised outcome that a recovery can see. */
  predicate RunEnded(sh: Shared) {
    sh.stored && sh.runs != [] && Terminal(sh.runs[|sh.runs| - 1].status)
  }

  /** What a recovery has to leave, when a cancellation is asked for or not. */
  predicate RecoveredFrom(sh: Shared, d: Record, cancelled: bool, d': Record) {
    if Terminal(d.status) then SameOutcome(d, d')
    else if RunEnded(sh) then
      var run := sh.runs[|sh.runs| - 1]; HasOutcome(d', run.status, run.exitCode, sh.now)
    else if cancelled then HasOutcome(d', Cancelled, None, sh.now)
    else HasOutcome(d', Abandoned, None, sh.now)
  }

  /** The stop hook and the recovery after a claim go by the request in the record. */
  lemma RecoveryGoesByTheRequest(s: State, e: Event, s': State)
    requires BlockStep(s, e, s') && e.p in s.procs
    requires s.procs[e.p] == Finisher(HookStarted) || (s.procs[e.p].Reconciler? && s.procs[e.p].rpc.Recovering?)
    ensures var d, d' := s.sh.record.value, s'.sh.record.value;
      SameMarks(d, d') && d'.cleanup == d.cleanup && RecoveredFrom(s.sh, d, d.cancelRequested, d')
  {}

  /** A reconcile that saw both absent goes by what it was asked to do, and collects. */
  lemma SettlingGoesByTheCommand(s: State, e: Event, s': State)
    requires BlockStep(s, e, s') && e.p in s.procs && s.procs[e.p].Reconciler? && s.procs[e.p].rpc == Settling(true)
    ensures var d, d' := s.sh.record.value, s'.sh.record.value;
      SameMarks(d, d') && d'.cleanup.Collected? && RecoveredFrom(s.sh, d, s.procs[e.p].cancel, d')
  {}

  /** A reconcile that saw one present leaves the outcome alone. */
  lemma SettlingOfPresent(s: State, e: Event, s': State)
    requires BlockStep(s, e, s') && e.p in s.procs && s.procs[e.p].Reconciler? && s.procs[e.p].rpc == Settling(false)
    ensures var d := s.sh.record.value;
      s'.sh.record.value ==
        if s.procs[e.p].cancel || Terminal(d.status) then d.(cleanup := CleanupPending) else d
  {}

  // ---- Cancellation from the command on ----

  /** A cancel makes its request durable at this step. */
  predicate RequestsAt(t: Trace, i: nat)
    requires |t.states| == |t.events| + 1
  {
    && i < |t.events| && t.events[i].Act?
    && var s, s', p := t.states[i], t.states[i + 1], t.events[i].p;
       && p in s.procs && s.procs[p].Reconciler? && s.procs[p].rpc.AskingCancel?
       && p in s'.procs && s'.procs[p].Reconciler? && s'.procs[p].rpc.ProbingClaim?
  }

  /** A cancel that goes about probing, stopping and settling. */
  predicate CancelPast(w: Proc) {
    && w.Reconciler? && w.cancel && !w.rpc.Discovering? && !w.rpc.Reading? && !w.rpc.AskingCancel?
    && !w.rpc.ReconcilerGone?
  }

  lemma CancelGoesOn(s: State, e: Event, s': State, p: nat)
    requires Step(s, e, s') && p in s'.procs && CancelPast(s'.procs[p])
    requires p !in s.procs || !CancelPast(s.procs[p])
    ensures e.Act? && e.p == p && p in s.procs && s.procs[p].Reconciler? && s.procs[p].rpc.AskingCancel?
    ensures s'.procs[p].rpc.ProbingClaim?
  {}

  /** No cancel gets past its reading without having made its request durable. */
  lemma {:induction false} CancelAsksFirst(t: Trace, i: nat, p: nat) returns (k: nat)
    requires IsRun(t) && i < |t.states| && p in t.states[i].procs && CancelPast(t.states[i].procs[p])
    ensures k < i && RequestsAt(t, k) && t.events[k].p == p
  {
    var s, s' := t.states[i - 1], t.states[i];
    if p in s.procs && CancelPast(s.procs[p]) {
      k := CancelAsksFirst(t, i - 1, p);
    } else {
      CancelGoesOn(s, t.events[i - 1], s', p);
      k := i - 1;
    }
  }

  lemma RequestIsDurable(t: Trace, i: nat)
    requires IsRun(t) && RequestsAt(t, i)
    ensures t.states[i].sh.record.Some?
    ensures t.states[i + 1].sh == t.states[i].sh.(record := Some(t.states[i].sh.record.value.(cancelRequested := true)))
  {
    assert Step(t.states[i], t.events[i], t.states[i + 1]);
  }

  /**
   * Once a cancel has made its request before anybody got past the starting block, no continuation
   * records a run or enters the workload.
   */
  lemma CancelStops(t: Trace, i: nat, j: nat)
    requires IsRun(t) && RequestsAt(t, i) && i < j < |t.states|
    requires t.states[i].sh.entered == 0 && t.states[i].sh.runs == []
    requires forall p | p in t.states[i].procs :: !Started(t.states[i].procs[p])
    ensures t.states[j].sh.entered == 0 && t.states[j].sh.runs == []
  {
    assert Step(t.states[i], t.events[i], t.states[i + 1]);
    RequestIsDurable(t, i);
    CancelSafety(t, i + 1, j);
  }

  /** The cancel's own block on such an execution leaves it cancelled, for good once submission is over. */
  lemma CancelledForGood(t: Trace, i: nat, j: nat)
    requires IsHonestRun(t) && i < |t.events| && i < j < |t.states| && Over(t.states[i].sh)
    requires BlockStep(t.states[i], t.events[i], t.states[i + 1])
    requires var s, p := t.states[i], t.events[i].p;
      p in s.procs && s.procs[p].Reconciler? && s.procs[p].cancel && s.procs[p].rpc == Settling(true)
      && !Terminal(s.sh.record.value.status) && !RunEnded(s.sh)
    ensures t.states[j].sh.record.Some? ==>
      HasOutcome(t.states[j].sh.record.value, Cancelled, None, t.states[i].sh.now)
  {
    SettlingGoesByTheCommand(t.states[i], t.events[i], t.states[i + 1]);
    assert t.states[i + 1].sh.phase == t.states[i].sh.phase;
    TerminalIsFinal(t, i + 1, j);
  }

  /** What the wrapper reports after submission is over stays for good. */
  lemma ReportStays(t: Trace, i: nat, j: nat, run: Run)
    requires IsHonestRun(t) && i < |t.events| && i < j < |t.states| && Over(t.states[i].sh)
    requires BlockStep(t.states[i], t.events[i], t.states[i + 1])
    requires WrapperAt(t.states[i], t.events[i].p, Finalised(run))
    ensures t.states[j].sh.record.Some? ==>
      HasOutcome(t.states[j].sh.record.value, run.status, run.exitCode, t.states[i].sh.now)
  {
    RunKeepsInv(t, i);
    var s, e := t.states[i], t.events[i];
    assert ProcInv(s.sh, e.p, s.procs[e.p]);
    WrapperReports(s, e, t.states[i + 1]);
    assert t.states[i + 1].sh.phase == s.sh.phase;
    TerminalIsFinal(t, i + 1, j);
  }

  // ---- Absent means that both were ----

  predicate ReconcilerAt(s: State, p: nat, pc: ReconcilerPc) {
    p in s.procs && s.procs[p].Reconciler? && s.procs[p].rpc == pc
  }

  lemma AbsenceGoesOn(s: State, e: Event, s': State, p: nat)
    requires Step(s, e, s') && ReconcilerAt(s', p, Settling(true))
    ensures ReconcilerAt(s, p, Settling(true)) || ReconcilerAt(s, p, ProbingService(false))
  {}

  /** Whoever settles as absent had asked for the service after finding the timer absent. */
  lemma {:induction false} BothWereAbsent(t: Trace, i: nat, p: nat) returns (k: nat)
    requires IsRun(t) && i < |t.states| && ReconcilerAt(t.states[i], p, Settling(true))
    ensures k < i && ReconcilerAt(t.states[k], p, ProbingService(false))
  {
    AbsenceGoesOn(t.states[i - 1], t.events[i - 1], t.states[i], p);
    if ReconcilerAt(t.states[i - 1], p, Settling(true)) {
      k := BothWereAbsent(t, i - 1, p);
    } else {
      k := i - 1;
    }
  }

  // ---- Prune looks only at what had an outcome ----

  predicate PrunePast(w: Proc) {
    w.Reconciler? && w.retention.Some? && !w.rpc.Discovering? && !w.rpc.ReconcilerGone?
  }

  lemma PruneGoesOn(s: State, e: Event, s': State, p: nat)
    requires Step(s, e, s') && p in s'.procs && PrunePast(s'.procs[p])
    ensures (p in s.procs && PrunePast(s.procs[p])) || Settled(s)
  {}

  /** Whatever a prune does to an execution, it had read a terminal record of it before. */
  lemma {:induction false} PruneFollowsAnOutcome(t: Trace, i: nat, p: nat) returns (k: nat)
    requires IsRun(t) && i < |t.states| && p in t.states[i].procs && PrunePast(t.states[i].procs[p])
    ensures k < i && Settled(t.states[k])
  {
    PruneGoesOn(t.states[i - 1], t.events[i - 1], t.states[i], p);
    if p in t.states[i - 1].procs && PrunePast(t.states[i - 1].procs[p]) {
      k := PruneFollowsAnOutcome(t, i - 1, p);
    } else {
      k := i - 1;
    }
  }
}
