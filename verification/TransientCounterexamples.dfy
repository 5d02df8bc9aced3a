/**
 * Reachable states, with honest verdicts all the way, that show which conditions are needed in
 * TransientOutcome, TransientPruning and TransientPresence.
 */
module TransientCounterexamples {
  import opened Common
  import opened TransientRecord
  import opened TransientProtocol
  import opened TransientContinuations
  import opened TransientOutcome
  import opened TransientPruning

  const START := State(Shared(None, Uncreated, false, [], false, 0, None, false, {}, None, 0, None), map[])

  const ORIGIN := Trace([START], [])

  ghost predicate Reachable(s: State) {
    Leads(ORIGIN, s)
  }

  lemma ReachCreated() returns (s: State)
    ensures Reachable(s) && s == START.(sh := START.sh.(record := Some(FRESH), phase := Created, snapshot := true))
  {
    s := START.(sh := START.sh.(record := Some(FRESH), phase := Created, snapshot := true));
    LeadsToItsEnd(ORIGIN);
    LeadsOn(ORIGIN, START, Create, s);
  }

  const ABANDONED := FRESH.(status := Abandoned, cleanup := Collected, finishedAt := Some(0))

  /** A reconcile has collected the execution before submission's block. */
  lemma ReachCollected() returns (s: State)
    ensures Reachable(s)
    ensures s == State(START.sh.(record := Some(ABANDONED), phase := Created, snapshot := true, collector := Some(0)),
                       map[0 := Reconciling(None, ReconcilerGone)])
  {
    var created := ReachCreated();
    LeadsByReconcile(ORIGIN, created, 0, None, true);
    s := At(created.(sh := Settlement(created.sh, 0, true)), 0, Reconciling(None, ReconcilerGone));
  }

  /**
   * A reconcile between submission's first write and its block leaves a scheduled execution
   * marked collected.
   */
  lemma CollectedButScheduled() returns (s: State)
    ensures Reachable(s) && s.sh.phase.Committed? && s.sh.record.Some?
    ensures s.sh.record.value.cleanup.Collected? && s.sh.record.value.status.Scheduled?
  {
    s := ReachCollected();
    LeadsByAnswer(ORIGIN, s, true);
    s := s.(sh := Answered(s.sh, true));
  }

  lemma ReachScheduled() returns (s: State)
    ensures Reachable(s) && s == START.(sh := START.sh.(
      record := Some(Apply(FRESH, Submit(true), 0)), phase := Committed, snapshot := true))
  {
    s := ReachCreated();
    LeadsByAnswer(ORIGIN, s, true);
    s := s.(sh := Answered(s.sh, true));
  }

  // ---- Removed although prune saw a registration present ----

  /** A prune whose probes found the registration present, about to select its candidates. */
  lemma ReachPruneAfterPresent() returns (s: State)
    ensures Reachable(s) && s.sh.record.Some? && Terminal(s.sh.record.value.status)
    ensures s.sh.phase.Committed? && s.sh.claimant.None? && s.sh.now == 0
    ensures s.sh.record.value.finishedAt == Some(0)
    ensures 1 in s.procs && 2 !in s.procs && s.procs[1] == Reconciling(Some(0), Selecting(false))
  {
    s := ReachScheduled();
    LeadsByReconcile(ORIGIN, s, 0, None, true);
    s := At(s.(sh := Settlement(s.sh, 0, true)), 0, Reconciling(None, ReconcilerGone));
    LeadsByReconcile(ORIGIN, s, 1, Some(0), false);
    s := At(s.(sh := Settlement(s.sh, 1, false)), 1, Reconciling(Some(0), Selecting(false)));
  }

  /** Another reconcile has collected the execution since prune saw its registration present. */
  lemma RemovedThoughSeenPresent() returns (s: State)
    ensures Reachable(s) && 1 in s.procs
    ensures var w := s.procs[1]; w.Reconciler? && w.rpc.Removing? && !w.rpc.absent && w.rpc.collectedBy == Some(2)
  {
    s := ReachPruneAfterPresent();
    LeadsByReconcile(ORIGIN, s, 2, None, true);
    s := At(s.(sh := Settlement(s.sh, 2, true)), 2, Reconciling(None, ReconcilerGone));
    s := ReachDecision(s, 1);
  }

  /** Prune discovers the collected record, then submission answers. */
  lemma ReachAnswered() returns (s: State)
    ensures Reachable(At(s, 1, Reconciling(Some(0), Reading)))
    ensures s == State(
      START.sh.(record := Some(ABANDONED.(status := Scheduled, acceptance := Accepted)), phase := Committed,
                snapshot := true, collector := Some(0)),
      map[0 := Reconciling(None, ReconcilerGone)])
  {
    var collected := ReachCollected();
    LeadsBySpawn(ORIGIN, collected, 1, Reconciling(Some(0), Discovering));
    LeadsQuietly(ORIGIN, collected, 1, Reconciling(Some(0), Discovering), Reconciling(Some(0), Reading));
    LeadsByAnswer(ORIGIN, At(collected, 1, Reconciling(Some(0), Reading)), true);
    s := collected.(sh := Answered(collected.sh, true));
    assert At(s, 1, Reconciling(Some(0), Reading)) == At(collected, 1, Reconciling(Some(0), Reading)).(sh := s.sh);
  }

  /** Prune's own block sees a registration present and leaves the mark. */
  lemma ReachPresentCollected() returns (s: State)
    ensures Reachable(s) && s.sh.phase.Committed? && s.sh.snapshot && s.sh.runs == [] && s.sh.collector == Some(0)
    ensures s.sh.record == Some(ABANDONED.(status := Scheduled, acceptance := Accepted))
    ensures 2 !in s.procs && 1 in s.procs && s.procs[1] == Reconciling(Some(0), Selecting(false))
  {
    var answered := ReachAnswered();
    LeadsByProbes(ORIGIN, answered, 1, Some(0), false);
    LeadsBySettlement(ORIGIN, answered, 1, Some(0), false);
    s := At(answered.(sh := Settlement(answered.sh, 1, false)), 1, Reconciling(Some(0), Selecting(false)));
  }

  /**
   * Nobody has collected the execution since: prune's own block left the old mark, the wrapper
   * ran and succeeded, and prune is about to remove the finished run.
   */
  lemma RemovedAfterSuccess() returns (s: State)
    ensures Reachable(s) && s.sh.runs == [Run(Succeeded, Some(0))] && 1 in s.procs
    ensures var w := s.procs[1];
      w.Reconciler? && w.rpc.Removing? && !w.rpc.absent && w.rpc.collectedBy == Some(0) && w.rpc.seen.status.Succeeded?
  {
    var present := ReachPresentCollected();
    var sh := LeadsToLaunch(ORIGIN, present, 2);
    s := ReachReported(State(sh, present.procs), 2);
    s := ReachDecision(s, 1);
  }

  lemma ReachDecision(s: State, p: nat) returns (s': State)
    requires Reachable(s) && p in s.procs && s.procs[p] == Reconciling(Some(0), Selecting(false))
    requires s.sh.record.Some? && Candidate(s.sh.record.value, 0, s.sh.now)
    ensures Reachable(s') && s'.sh == s.sh && p in s'.procs
    ensures s'.procs[p] == Reconciling(Some(0), Removing(s.sh.record.value, false, s.sh.collector))
  {
    var w := Reconciling(Some(0), Removing(s.sh.record.value, false, s.sh.collector));
    ActStep(s, p, Quiet, s.sh, w);
    LeadsOn(ORIGIN, s, Act(p, Quiet), At(s, p, w));
    s' := At(s, p, w);
  }

  lemma ReachReported(s: State, p: nat) returns (s': State)
    requires Reachable(At(s, p, Wrapper(Launching, false))) && Free(s.sh)
    requires s.sh.record.Some? && s.sh.runs == [Run(Running, None)]
    ensures Reachable(s') && s' == At(s.(sh := s'.sh), p, Wrapper(Closing, false))
    ensures s'.sh.runs == [Run(Succeeded, Some(0))] && s'.sh.collector == s.sh.collector && s'.sh.record.Some?
    ensures var d, d' := s.sh.record.value, s'.sh.record.value;
      d'.status.Succeeded? && d'.cleanup == d.cleanup && d'.finishedAt == Some(s'.sh.now)
  {
    var run := Run(Succeeded, Some(0));
    var finalised := Finished(s.sh, run);
    var reported := finalised.(record := Some(Apply(s.sh.record.value, Report(run), s.sh.now)));
    LeadsToFinalised(ORIGIN, s, p, run);
    LeadsByWrapper(ORIGIN, s.(sh := finalised), p, Finalised(run), InBlock(Report(run)), reported, Closing);
    s' := At(s.(sh := reported), p, Wrapper(Closing, false));
  }

  // ---- Entered although prune has removed it ----

  /** A prune that collected the execution again, about to select, before submission's answer. */
  lemma ReachEarlySettlement() returns (s: State)
    ensures Reachable(s)
    ensures s.sh == START.sh.(record := Some(ABANDONED), phase := Created, snapshot := true, collector := Some(1))
    ensures 1 in s.procs && s.procs[1] == Reconciling(Some(0), Selecting(true))
  {
    s := ReachCollected();
    LeadsByReconcile(ORIGIN, s, 1, Some(0), true);
    s := At(s.(sh := Settlement(s.sh, 1, true)), 1, Reconciling(Some(0), Selecting(true)));
  }

  lemma ReachEarlySelection() returns (t: Trace)
    ensures IsHonestRun(t) && JustSelected(t, 1) && Revivable(End(t).sh)
  {
    var s := ReachEarlySettlement();
    var u :| ContinuesTo(u, ORIGIN, s);
    var w := Reconciling(Some(0), Removing(ABANDONED, true, Some(1)));
    ActStep(s, 1, Quiet, s.sh, w);
    ThenContinues(u, Act(1, Quiet), At(s, 1, w));
    t := Then(u, Act(1, Quiet), At(s, 1, w));
  }

  /** The workload is entered after prune has removed the execution. */
  lemma EnteredAfterRemoval() returns (u: Trace)
    ensures IsHonestRun(u) && EntersAfterRemoval(u, 1, 0)
  {
    var t := ReachEarlySelection();
    PrunedNeverRunsAgain(t, 1);
    u :| Continues(u, t) && EntersAfterRemoval(u, 1, |t.events|);
    var k, j :| |t.events| <= k && RemovesThenEnters(u, 1, k, j);
    assert 0 <= k && RemovesThenEnters(u, 1, k, j);
  }

  // ---- A dishonest verdict ----

  /** A claimed, waiting wrapper, and a stop hook that should not have been started. */
  lemma ReachWaiting() returns (s: State)
    ensures Reachable(s) && s.sh.phase.Committed?
    ensures s.procs == map[0 := Wrapper(Waiting, false), 1 := Finisher(HookStarted)]
    ensures s.sh == START.sh.(record := Some(Apply(Apply(FRESH, Submit(true), 0), Claim, 0)),
                              phase := Committed, snapshot := true, claimant := Some(0))
  {
    var scheduled := ReachScheduled();
    LeadsByClaim(ORIGIN, scheduled, 0);
    var waiting := At(scheduled.(sh := Claimed(scheduled.sh, 0)), 0, Wrapper(Waiting, false));
    LeadsBySpawn(ORIGIN, waiting, 1, Finisher(HookStarted));
    s := At(waiting, 1, Finisher(HookStarted));
  }

  /** The hook recovers the record although the claimant lives. */
  lemma FalseVerdict(s: State) returns (s': State)
    requires s.procs == map[0 := Wrapper(Waiting, false), 1 := Finisher(HookStarted)]
    requires Free(s.sh) && s.sh.claimant == Some(0) && s.sh.record.Some? && Visible(s.sh) == None
    ensures Step(s, Act(1, InBlock(Recover(None))), s') && !Honest(s, Act(1, InBlock(Recover(None))))
    ensures s'.sh == s.sh.(record := Some(Apply(s.sh.record.value, Recover(None), s.sh.now)))
    ensures 0 in s'.procs && s'.procs[0] == Wrapper(Waiting, false)
  {
    var recovered := s.sh.(record := Some(Apply(s.sh.record.value, Recover(None), s.sh.now)));
    ActStep(s, 1, InBlock(Recover(None)), recovered, Finisher(StoppingTimer));
    s' := At(s.(sh := recovered), 1, Finisher(StoppingTimer));
  }

  /** The waiting wrapper starts all the same. */
  lemma WaiterStarts(s: State) returns (s': State, s'': State)
    requires 0 in s.procs && s.procs[0] == Wrapper(Waiting, false) && DuePassed(s.sh) && Free(s.sh)
    requires s.sh.record.Some? && !s.sh.record.value.cancelRequested
    ensures Step(s, Act(0, Quiet), s') && Step(s', Act(0, InBlock(Start(false))), s'')
    ensures s''.sh.record == Some(s.sh.record.value.(status := Running))
  {
    var started := s.sh.(record := Some(Apply(s.sh.record.value, Start(false), s.sh.now)));
    ActStep(s, 0, Quiet, s.sh, Wrapper(Ready, false));
    s' := At(s, 0, Wrapper(Ready, false));
    ActStep(s', 0, InBlock(Start(false)), started, Wrapper(Loading, false));
    s'' := At(s'.(sh := started), 0, Wrapper(Loading, false));
  }

  /**
   * One dishonest verdict is enough: a recovery against a live wrapper makes the status
   * terminal, and two steps later that wrapper has overwritten it.
   */
  lemma FalseVerdictUndone() returns (s: State, recovered: State, ready: State, started: State)
    ensures Reachable(s) && !Honest(s, Act(1, InBlock(Recover(None))))
    ensures Step(s, Act(1, InBlock(Recover(None))), recovered)
    ensures Step(recovered, Act(0, Quiet), ready) && Step(ready, Act(0, InBlock(Start(false))), started)
    ensures recovered.sh.phase.Committed? && Settled(recovered) && !OutcomeKept(recovered, started)
  {
    s := ReachWaiting();
    recovered := FalseVerdict(s);
    ready, started := WaiterStarts(recovered);
  }
}
