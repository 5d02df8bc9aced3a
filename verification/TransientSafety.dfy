/**
 * What every run of the transient protocol keeps when nothing is assumed about the scheduler:
 * probes may answer anything, at any time.
 */
module TransientSafety {
  import opened Common
  import opened TransientRecord
  import opened TransientProtocol

  // ---- At most once ----

  lemma {:induction false} EntriesNeverUncounted(t: Trace, i: nat, j: nat)
    requires IsRun(t) && i <= j < |t.states|
    ensures t.states[i].sh.entered <= t.states[j].sh.entered
  {
    if i < j {
      EntriesNeverUncounted(t, i, j - 1);
      assert Step(t.states[j - 1], t.events[j - 1], t.states[j]);
    }
  }

  predicate EntersAt(t: Trace, i: nat) {
    i < |t.events| && t.events[i].Act? && t.events[i].eff.EnterWorkload?
  }

  /** Over all interleavings, redeliveries and crashes, the workload is entered at most once. */
  lemma AtMostOnce(t: Trace, i: nat, j: nat)
    requires IsRun(t) && EntersAt(t, i) && EntersAt(t, j)
    ensures i == j
  {
    var a, b := if i < j then i else j, if i < j then j else i;
    if a < b {
      assert Step(t.states[a], t.events[a], t.states[a + 1]);
      assert Step(t.states[b], t.events[b], t.states[b + 1]);
      EntriesNeverUncounted(t, a + 1, b);
      RunKeepsInv(t, b + 1);
    }
  }

  /**
   * Whoever enters the workload owns the claim, does so after the deadline, and had found no
   * cancellation after its run was recorded; a signal that comes after that look is too late.
   */
  lemma EntryIsClaimed(t: Trace, i: nat)
    requires IsRun(t) && EntersAt(t, i)
    ensures var s, p := t.states[i], t.events[i].p;
      && s.sh.claimant == Some(p) && (s.sh.due.Some? ==> s.sh.due.value <= s.sh.now)
      && s.sh.runs == [Run(Running, None)]
      && p in s.procs && s.procs[p].Wrapper? && s.procs[p].wpc.Launching?
  {
    RunKeepsInv(t, i);
    var s, e := t.states[i], t.events[i];
    assert Step(s, e, t.states[i + 1]);
    assert ProcInv(s.sh, e.p, s.procs[e.p]);
  }

  // ---- Cancellation ----

  predicate Started(w: Proc) {
    && w.Wrapper?
    && (w.wpc.Loading? || w.wpc.Loaded? || w.wpc.Preparing?
        || w.wpc.Launching? || w.wpc.Working? || w.wpc.Finalised?)
  }

  /** The cancellation is in every copy of the record, and nobody has passed the starting block. */
  predicate CancelledInTime(s: State) {
    && s.sh.entered == 0 && s.sh.runs == [] && !s.sh.phase.Uncreated?
    && (s.sh.record.Some? ==> s.sh.record.value.cancelRequested)
    && (s.sh.phase.Holding? ==> s.sh.phase.data.cancelRequested)
    && forall p | p in s.procs :: !Started(s.procs[p])
  }

  /** A process that has not started the workload cannot start it against the cancellation. */
  lemma CancelledStopsProcess(sh: Shared, p: nat, w: Proc, eff: Effect, sh': Shared, w': Proc)
    requires Does(sh, p, eff, sh') && Moves(sh, w, eff, w') && !Started(w)
    requires sh.record.Some? ==> sh.record.value.cancelRequested
    ensures !Started(w') && sh'.runs == sh.runs && sh'.entered == sh.entered && sh'.phase == sh.phase
    ensures sh'.record.Some? ==> sh'.record.value.cancelRequested
  {}

  lemma CancelledStaysCancelled(s: State, e: Event, s': State)
    requires CancelledInTime(s) && Step(s, e, s')
    ensures CancelledInTime(s')
  {
    if e.Act? {
      CancelledStopsProcess(s.sh, e.p, s.procs[e.p], e.eff, s'.sh, s'.procs[e.p]);
    }
  }

  predicate KeepsCancelled(s: State, s': State) {
    CancelledInTime(s) ==> CancelledInTime(s')
  }

  lemma RunKeepsCancelled(t: Trace, k: nat)
    requires IsRun(t) && k < |t.events|
    ensures KeepsCancelled(t.states[k], t.states[k + 1])
  {
    if CancelledInTime(t.states[k]) {
      CancelledStaysCancelled(t.states[k], t.events[k], t.states[k + 1]);
    }
  }

  lemma {:induction false} CancelledAlong(states: seq<State>, i: nat, j: nat)
    requires i <= j < |states| && CancelledInTime(states[i])
    requires forall k | i <= k < j :: KeepsCancelled(states[k], states[k + 1])
    ensures CancelledInTime(states[j])
  {
    if i < j {
      CancelledAlong(states, i, j - 1);
      assert KeepsCancelled(states[j - 1], states[j - 1 + 1]);
    }
  }

  lemma CancelledForever(t: Trace, i: nat, j: nat)
    requires IsRun(t) && i <= j < |t.states| && CancelledInTime(t.states[i])
    ensures CancelledInTime(t.states[j])
  {
    forall k | i <= k < j ensures KeepsCancelled(t.states[k], t.states[k + 1]) {
      RunKeepsCancelled(t, k);
    }
    CancelledAlong(t.states, i, j);
  }

  /**
   * Once a cancellation is durable before the claimant's starting block, no continuation
   * records a run or enters the workload, whatever is delivered again and even when
   * submission later overwrites the status.
   */
  lemma CancelSafety(t: Trace, i: nat, j: nat)
    requires IsRun(t) && i <= j < |t.states|
    requires t.states[i].sh.record.Some? && t.states[i].sh.record.value.cancelRequested
    requires t.states[i].sh.entered == 0
    requires forall p | p in t.states[i].procs :: !Started(t.states[i].procs[p])
    requires t.states[i].sh.runs == []
    ensures t.states[j].sh.entered == 0 && t.states[j].sh.runs == []
  {
    RunKeepsInv(t, i);
    CancelledForever(t, i, j);
  }

  // ---- No invented results ----

  predicate FromRun(status: Status) {
    status.Succeeded? || status.Failed? || status.TimedOut? || status.Skipped?
  }

  /** A result only a run can have is the result of the run in the history. */
  predicate Backed(sh: Shared) {
    sh.record.Some? && FromRun(sh.record.value.status) ==>
      sh.runs == [Run(sh.record.value.status, sh.record.value.exitCode)]
  }

  lemma WrapperKeepsBacked(sh: Shared, p: nat, w: Proc, eff: Effect, sh': Shared, w': Proc)
    requires SharedInv(sh) && ProcInv(sh, p, w) && w.Wrapper? && Backed(sh)
    requires Does(sh, p, eff, sh') && Moves(sh, w, eff, w')
    ensures Backed(sh')
  {}

  /** What a recovery writes is the outcome of the latest run in the history, or no result at all. */
  lemma RecoveredIsBacked(sh: Shared, cancel: bool)
    requires SharedInv(sh) && Backed(sh) && sh.record.Some?
    ensures var d := Recovered(sh.record.value, Visible(sh), cancel, sh.now);
      FromRun(d.status) ==> sh.runs == [Run(d.status, d.exitCode)]
  {}

  predicate RecoveryBlock(b: Block, visible: Option<Run>) {
    b.AskCancel? || b.Delegate? || b.FailCleanup? || b == Recover(visible)
  }

  lemma ProgramOfRecovery(sh: Shared, w: Proc, eff: Effect, w': Proc)
    requires Moves(sh, w, eff, w') && !w.Wrapper?
    ensures eff.Quiet? || eff.Settle? || eff.RemoveFiles? || (eff.InBlock? && RecoveryBlock(eff.block, Visible(sh)))
  {}

  lemma RecoveryBlockKeepsBacked(sh: Shared, p: nat, eff: Effect, sh': Shared)
    requires SharedInv(sh) && Backed(sh) && Does(sh, p, eff, sh')
    requires eff.InBlock? && RecoveryBlock(eff.block, Visible(sh))
    ensures Backed(sh')
  {
    RecoveredIsBacked(sh, sh.record.value.cancelRequested);
  }

  lemma SettlementKeepsBacked(sh: Shared, p: nat, eff: Effect, sh': Shared)
    requires SharedInv(sh) && Backed(sh) && Does(sh, p, eff, sh') && eff.Settle?
    ensures Backed(sh')
  {
    RecoveredIsBacked(sh, eff.cancel);
  }

  lemma RecoveryKeepsBacked(sh: Shared, p: nat, w: Proc, eff: Effect, sh': Shared, w': Proc)
    requires SharedInv(sh) && !w.Wrapper? && Backed(sh)
    requires Does(sh, p, eff, sh') && Moves(sh, w, eff, w')
    ensures Backed(sh')
  {
    ProgramOfRecovery(sh, w, eff, w');
    if eff.Settle? {
      SettlementKeepsBacked(sh, p, eff, sh');
    } else if eff.InBlock? {
      RecoveryBlockKeepsBacked(sh, p, eff, sh');
    }
  }

  lemma StepKeepsBacked(s: State, e: Event, s': State)
    requires Inv(s) && Backed(s.sh) && Step(s, e, s')
    ensures Backed(s'.sh)
  {
    if e.Act? {
      var w, w' := s.procs[e.p], s'.procs[e.p];
      if w.Wrapper? {
        WrapperKeepsBacked(s.sh, e.p, w, e.eff, s'.sh, w');
      } else {
        RecoveryKeepsBacked(s.sh, e.p, w, e.eff, s'.sh, w');
      }
    }
  }

  /** Success, failure, timeout and skip are never reported without the run that ended so. */
  lemma {:induction false} ResultsAreBacked(t: Trace, i: nat)
    requires IsRun(t) && i < |t.states|
    ensures Backed(t.states[i].sh)
  {
    if i > 0 {
      ResultsAreBacked(t, i - 1);
      RunKeepsInv(t, i - 1);
      StepKeepsBacked(t.states[i - 1], t.events[i - 1], t.states[i]);
    }
  }

  // ---- No unearned results ----

  /** What the end of a workload can be: success is the code zero of a workload that was entered. */
  predicate Earned(sh: Shared, run: Run) {
    && (run.status.Succeeded? ==> run.exitCode == Some(0))
    && (run.status.Failed? ==> run.exitCode != Some(0))
    && (run.status.Succeeded? || run.status.Failed? || run.status.TimedOut? ==> sh.entered == 1)
    && (run.status.Running? ==> run.exitCode.None?)
    && (run.status.Running? || Terminal(run.status))
  }

  predicate AllEarned(sh: Shared) {
    forall i | 0 <= i < |sh.runs| :: Earned(sh, sh.runs[i])
  }

  /** A workload in progress has been entered. */
  predicate WorkersEntered(s: State) {
    forall p | p in s.procs && s.procs[p].Wrapper? && s.procs[p].wpc.Working? :: s.sh.entered == 1
  }

  lemma EffectKeepsEarned(sh: Shared, p: nat, w: Proc, eff: Effect, sh': Shared, w': Proc)
    requires SharedInv(sh) && ProcInv(sh, p, w) && AllEarned(sh) && Does(sh, p, eff, sh') && Moves(sh, w, eff, w')
    requires w.Wrapper? && w.wpc.Working? ==> sh.entered == 1
    ensures AllEarned(sh') && (w'.Wrapper? && w'.wpc.Working? ==> sh'.entered == 1)
    ensures sh.entered == 1 ==> sh'.entered == 1 || eff.EnterWorkload?
  {}

  lemma StepKeepsEarned(s: State, e: Event, s': State)
    requires Inv(s) && Inv(s') && AllEarned(s.sh) && WorkersEntered(s) && Step(s, e, s')
    ensures AllEarned(s'.sh) && WorkersEntered(s')
  {
    if e.Act? {
      var w := s.procs[e.p];
      assert ProcInv(s.sh, e.p, w);
      EffectKeepsEarned(s.sh, e.p, w, e.eff, s'.sh, s'.procs[e.p]);
      ProgramIsEntitled(s.sh, e.p, w, e.eff, s'.procs[e.p]);
    }
  }

  lemma {:induction false} RunsAreEarned(t: Trace, i: nat)
    requires IsRun(t) && i < |t.states|
    ensures AllEarned(t.states[i].sh) && WorkersEntered(t.states[i])
  {
    if i > 0 {
      RunsAreEarned(t, i - 1);
      RunKeepsInv(t, i - 1);
      RunKeepsInv(t, i);
      StepKeepsEarned(t.states[i - 1], t.events[i - 1], t.states[i]);
    }
  }

  /**
   * Whatever probes answer: a record says success only if the workload was entered, once, and ended
   * with code zero; failure only if it was entered and did not; timeout only if it was entered.
   */
  lemma ResultsAreEarned(t: Trace, i: nat)
    requires IsRun(t) && i < |t.states| && t.states[i].sh.record.Some?
    ensures var sh, d := t.states[i].sh, t.states[i].sh.record.value;
      && (d.status.Succeeded? ==> d.exitCode == Some(0) && sh.entered == 1)
      && (d.status.Failed? ==> d.exitCode != Some(0) && sh.entered == 1)
      && (d.status.TimedOut? ==> sh.entered == 1)
  {
    ResultsAreBacked(t, i);
    RunsAreEarned(t, i);
    var sh := t.states[i].sh;
    if FromRun(sh.record.value.status) {
      assert Earned(sh, sh.runs[0]);
    }
  }

  // ---- Removal by prune ----

  predicate RemovesAt(t: Trace, i: nat) {
    i < |t.events| && t.events[i].Act? && t.events[i].eff.RemoveFiles?
  }

  /**
   * Prune removes only what it read as terminal, collected and finished long enough ago, and
   * only when some reconcile found both registrations absent: this prune itself, or another
   * process that collected the execution in the meantime.
   */
  lemma PruneIsJustified(t: Trace, i: nat)
    requires IsRun(t) && RemovesAt(t, i)
    ensures var s, p := t.states[i], t.events[i].p;
      && p in s.procs && s.procs[p].Reconciler? && s.procs[p].rpc.Removing?
      && var w := s.procs[p];
         && w.retention.Some? && Terminal(w.rpc.seen.status) && w.rpc.seen.cleanup.Collected?
         && w.rpc.seen.finishedAt.Some? && s.sh.now - w.rpc.seen.finishedAt.value >= w.retention.value
         && w.rpc.collectedBy.Some? && (w.rpc.collectedBy == Some(p) ==> w.rpc.absent)
  {
    RunKeepsInv(t, i);
    var s, e := t.states[i], t.events[i];
    assert Step(s, e, t.states[i + 1]);
    assert ProcInv(s.sh, e.p, s.procs[e.p]);
  }
}
