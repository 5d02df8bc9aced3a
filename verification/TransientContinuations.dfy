/**
 * What can still follow a run: honest continuations, built one step at a time.
 */
module TransientContinuations {
  import opened Common
  import opened TransientRecord
  import opened TransientProtocol

  function End(t: Trace): State
    requires t.states != []
  {
    t.states[|t.states| - 1]
  }

  ghost predicate Continues(u: Trace, t: Trace) {
    IsHonestRun(u) && t.states <= u.states && t.events <= u.events
  }

  ghost predicate ContinuesTo(u: Trace, t: Trace, s: State) {
    Continues(u, t) && End(u) == s
  }

  /** Some honest continuation of the run is in this state at its end. */
  ghost predicate Leads(t: Trace, s: State) {
    exists u :: ContinuesTo(u, t, s)
  }

  lemma LeadsToItsEnd(t: Trace)
    requires IsHonestRun(t)
    ensures Leads(t, End(t))
  {
    assert ContinuesTo(t, t, End(t));
  }

  function Then(t: Trace, e: Event, s: State): Trace {
    Trace(t.states + [s], t.events + [e])
  }

  lemma ThenContinues(t: Trace, e: Event, s: State)
    requires IsHonestRun(t) && Step(End(t), e, s) && Honest(End(t), e)
    ensures ContinuesTo(Then(t, e, s), t, s)
  {}

  lemma LeadsOn(t: Trace, s: State, e: Event, s': State)
    requires Leads(t, s) && Step(s, e, s') && Honest(s, e)
    ensures Leads(t, s')
  {
    var u :| ContinuesTo(u, t, s);
    ThenContinues(u, e, s');
    assert ContinuesTo(Then(u, e, s'), t, s');
  }

  // ---- Steps of one process ----

  function At(s: State, p: nat, w: Proc): State {
    State(s.sh, s.procs[p := w])
  }

  lemma ActStep(s: State, p: nat, eff: Effect, sh': Shared, w': Proc)
    requires p in s.procs && Does(s.sh, p, eff, sh') && Moves(s.sh, s.procs[p], eff, w')
    ensures Step(s, Act(p, eff), At(s.(sh := sh'), p, w'))
  {}

  lemma LeadsByAct(t: Trace, s: State, p: nat, w: Proc, eff: Effect, sh': Shared, w': Proc)
    requires Leads(t, At(s, p, w)) && Does(s.sh, p, eff, sh') && Moves(s.sh, w, eff, w')
    requires UsesVerdict(w) ==> !LiveClaim(At(s, p, w))
    ensures Leads(t, At(s.(sh := sh'), p, w'))
  {
    var before := At(s, p, w);
    assert At(before.(sh := sh'), p, w') == At(s.(sh := sh'), p, w');
    ActStep(before, p, eff, sh', w');
    LeadsOn(t, before, Act(p, eff), At(s.(sh := sh'), p, w'));
  }

  lemma LeadsQuietly(t: Trace, s: State, p: nat, w: Proc, w': Proc)
    requires Leads(t, At(s, p, w)) && Moves(s.sh, w, Quiet, w') && !UsesVerdict(w)
    ensures Leads(t, At(s, p, w'))
  {
    LeadsByAct(t, s, p, w, Quiet, s.sh, w');
  }

  lemma LeadsBySpawn(t: Trace, s: State, p: nat, w: Proc)
    requires Leads(t, s) && p !in s.procs && Startable(w)
    ensures Leads(t, At(s, p, w))
  {
    LeadsOn(t, s, Spawn(p, w), At(s, p, w));
  }

  lemma LeadsByTick(t: Trace, s: State, now: int)
    requires Leads(t, s) && s.sh.now <= now
    ensures Leads(t, s.(sh := s.sh.(now := now)))
  {
    LeadsOn(t, s, Tick(now), s.(sh := s.sh.(now := now)));
  }

  /** There is always a process number that is not in use. */
  lemma {:induction false} FreshPid(pids: set<nat>) returns (n: nat)
    ensures forall p | p in pids :: p < n
    decreases |pids|
  {
    n := 0;
    if pids != {} {
      var p :| p in pids;
      var m := FreshPid(pids - {p});
      n := if p < m then m else p + 1;
      forall q | q in pids ensures q < n {
        assert q == p || q in pids - {p};
      }
    }
  }

  // ---- Submission ----

  function Answered(sh: Shared, ok: bool): Shared
    requires sh.record.Some?
  {
    sh.(record := Some(Apply(sh.record.value, Submit(ok), sh.now)), phase := Committed)
  }

  /** Submission's block can run next, or go on if it has already taken the lock. */
  lemma LeadsByAnswer(t: Trace, s: State, ok: bool)
    requires Leads(t, s) && s.sh.record.Some?
    requires s.sh.phase.Created? || s.sh.phase == Holding(s.sh.record.value, ok)
    ensures Leads(t, s.(sh := Answered(s.sh, ok)))
  {
    var held := s.(sh := s.sh.(phase := Holding(s.sh.record.value, ok)));
    if s.sh.phase.Created? {
      LeadsOn(t, s, Register(ok), held);
    } else {
      assert held == s;
    }
    LeadsOn(t, held, Commit, s.(sh := Answered(s.sh, ok)));
  }

  // ---- A reconcile ----

  function Settlement(sh: Shared, p: nat, absent: bool): Shared
    requires sh.record.Some?
  {
    sh.(record := Some(Apply(sh.record.value, Collect(Visible(sh), absent, false), sh.now)),
        collector := if absent then Some(p) else sh.collector)
  }

  function Reconciling(retention: Option<nat>, pc: ReconcilerPc): Proc {
    Reconciler(false, retention, pc)
  }

  lemma LeadsByProbes(t: Trace, s: State, p: nat, retention: Option<nat>, absent: bool)
    requires Leads(t, At(s, p, Reconciling(retention, Reading))) && s.sh.record.Some?
    ensures Leads(t, At(s, p, Reconciling(retention, Settling(absent))))
  {
    var d := s.sh.record.value;
    LeadsQuietly(t, s, p, Reconciling(retention, Reading), Reconciling(retention, ProbingClaim(d)));
    LeadsQuietly(t, s, p, Reconciling(retention, ProbingClaim(d)), Reconciling(retention, Stopping(d)));
    LeadsQuietly(t, s, p, Reconciling(retention, Stopping(d)), Reconciling(retention, Probing));
    LeadsQuietly(t, s, p, Reconciling(retention, Probing), Reconciling(retention, ProbingService(!absent)));
    LeadsQuietly(t, s, p, Reconciling(retention, ProbingService(!absent)), Reconciling(retention, Settling(absent)));
  }

  function AfterSettling(retention: Option<nat>, absent: bool): Proc {
    Reconciling(retention, if retention.Some? then Selecting(absent) else ReconcilerGone)
  }

  lemma LeadsBySettlement(t: Trace, s: State, p: nat, retention: Option<nat>, absent: bool)
    requires Leads(t, At(s, p, Reconciling(retention, Settling(absent))))
    requires Free(s.sh) && s.sh.record.Some? && !LiveClaim(At(s, p, Reconciling(retention, Settling(absent))))
    ensures Leads(t, At(s.(sh := Settlement(s.sh, p, absent)), p, AfterSettling(retention, absent)))
  {
    LeadsByAct(t, s, p, Reconciling(retention, Settling(absent)), Settle(absent, false),
               Settlement(s.sh, p, absent), AfterSettling(retention, absent));
  }

  /** A reconcile, or the reconcile inside a prune, from its start to the block that settles. */
  lemma LeadsByReconcile(t: Trace, s: State, p: nat, retention: Option<nat>, absent: bool)
    requires Leads(t, s) && p !in s.procs && Free(s.sh) && s.sh.record.Some? && !LiveClaim(s)
    requires s.sh.claimant != Some(p)
    requires retention.Some? ==> Terminal(s.sh.record.value.status)
    ensures Leads(t, At(s.(sh := Settlement(s.sh, p, absent)), p, AfterSettling(retention, absent)))
  {
    var first := Reconciling(retention, if retention.Some? then Discovering else Reading);
    LeadsBySpawn(t, s, p, first);
    if retention.Some? {
      LeadsQuietly(t, s, p, first, Reconciling(retention, Reading));
    }
    LeadsByProbes(t, s, p, retention, absent);
    LeadsBySettlement(t, s, p, retention, absent);
  }

  // ---- A wrapper ----

  lemma LeadsByWrapper(t: Trace, s: State, p: nat, pc: WrapperPc, eff: Effect, sh': Shared, pc': WrapperPc)
    requires Leads(t, At(s, p, Wrapper(pc, false)))
    requires Does(s.sh, p, eff, sh') && WrapperMoves(s.sh, pc, false, eff, pc')
    ensures Leads(t, At(s.(sh := sh'), p, Wrapper(pc', false)))
  {
    LeadsByAct(t, s, p, Wrapper(pc, false), eff, sh', Wrapper(pc', false));
  }

  function Claimed(sh: Shared, p: nat): Shared
    requires sh.record.Some?
  {
    sh.(record := Some(Apply(sh.record.value, Claim, sh.now)), claimant := Some(p))
  }

  lemma LeadsByClaim(t: Trace, s: State, p: nat)
    requires Leads(t, s) && p !in s.procs && Free(s.sh) && s.sh.record.Some? && Claimable(s.sh.record.value)
    ensures Leads(t, At(s.(sh := Claimed(s.sh, p)), p, Wrapper(Waiting, false)))
  {
    LeadsBySpawn(t, s, p, Wrapper(Delivered, false));
    LeadsByWrapper(t, s, p, Delivered, TakeClaim, Claimed(s.sh, p), Waiting);
  }

  function Recorded(sh: Shared): Shared
    requires sh.record.Some?
  {
    sh.(record := Some(Apply(sh.record.value, Start(false), sh.now)),
        runs := sh.runs + [Run(Running, None)], stored := true)
  }

  /** A claimant that nobody cancels gets from the deadline to the start of the workload. */
  lemma LeadsToLaunching(t: Trace, s: State, p: nat)
    requires Leads(t, At(s, p, Wrapper(Waiting, false))) && Free(s.sh) && DuePassed(s.sh) && s.sh.snapshot
    requires s.sh.record.Some? && !s.sh.record.value.cancelRequested
    ensures Leads(t, At(s.(sh := Recorded(s.sh)), p, Wrapper(Launching, false)))
  {
    var started := s.sh.(record := Some(Apply(s.sh.record.value, Start(false), s.sh.now)));
    LeadsByWrapper(t, s, p, Waiting, Quiet, s.sh, Ready);
    LeadsByWrapper(t, s, p, Ready, InBlock(Start(false)), started, Loading);
    LeadsByWrapper(t, s.(sh := started), p, Loading, Quiet, started, Loaded);
    LeadsByWrapper(t, s.(sh := started), p, Loaded, RecordRun, Recorded(s.sh), Preparing);
    LeadsByWrapper(t, s.(sh := Recorded(s.sh)), p, Preparing, Quiet, Recorded(s.sh), Launching);
  }

  /** A fresh wrapper can claim, wait for the deadline and get to the start of the workload. */
  lemma LeadsToLaunch(t: Trace, s: State, p: nat) returns (sh: Shared)
    requires Leads(t, s) && p !in s.procs && Free(s.sh) && s.sh.snapshot
    requires s.sh.record.Some? && Claimable(s.sh.record.value)
    ensures Leads(t, State(sh, s.procs[p := Wrapper(Launching, false)]))
    ensures sh.entered == s.sh.entered && sh.phase == s.sh.phase && sh.collector == s.sh.collector
    ensures sh.claimant == Some(p) && sh.snapshot && sh.stored && sh.announced == s.sh.announced
    ensures sh.runs == s.sh.runs + [Run(Running, None)]
    ensures sh.record.Some? && sh.record.value == s.sh.record.value.(claimed := true, status := Running)
  {
    LeadsByClaim(t, s, p);
    var waiting := s.(sh := Claimed(s.sh, p));
    var now := if s.sh.due.Some? && s.sh.now < s.sh.due.value then s.sh.due.value else s.sh.now;
    LeadsByTick(t, At(waiting, p, Wrapper(Waiting, false)), now);
    var due := waiting.(sh := waiting.sh.(now := now));
    assert At(waiting, p, Wrapper(Waiting, false)).(sh := due.sh) == At(due, p, Wrapper(Waiting, false));
    LeadsToLaunching(t, due, p);
    sh := Recorded(due.sh);
  }

  function Finished(sh: Shared, run: Run): Shared {
    sh.(entered := sh.entered + 1, runs := [run], stored := true)
  }

  /** The workload runs and ends, and its outcome is in the run history. */
  lemma LeadsToFinalised(t: Trace, s: State, p: nat, run: Run)
    requires Leads(t, At(s, p, Wrapper(Launching, false))) && |s.sh.runs| == 1 && LateOutcome(run, false)
    ensures Leads(t, At(s.(sh := Finished(s.sh, run)), p, Wrapper(Finalised(run), false)))
  {
    var entered := s.sh.(entered := s.sh.entered + 1);
    LeadsByWrapper(t, s, p, Launching, EnterWorkload, entered, Working);
    LeadsByWrapper(t, s.(sh := entered), p, Working, FinaliseRun(run), Finished(s.sh, run), Finalised(run));
  }
}
