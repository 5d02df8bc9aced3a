/**
 * What prune may remove when other processes interfere, and whether anything can run after it
 * has: exact conditions, over every run and every continuation.
 */
module TransientPruning {
  import opened Common
  import opened TransientRecord
  import opened TransientProtocol
  import opened TransientContinuations
  import opened TransientOutcome

  // ---- Two more facts about every run ----

  predicate Timed(d: Record) {
    Terminal(d.status) ==> d.finishedAt.Some?
  }

  /** A terminal record has a completion time, and the first record comes with its snapshot. */
  predicate Sound(sh: Shared) {
    && (sh.record.Some? ==> Timed(sh.record.value))
    && (sh.phase.Holding? ==> Timed(sh.phase.data))
    && (sh.record.Some? && (sh.phase.Created? || sh.phase.Holding?) ==> sh.snapshot)
  }

  lemma BlockKeepsTimed(d: Record, b: Block, now: int)
    requires Timed(d)
    ensures Timed(Apply(d, b, now))
  {}

  lemma EffectKeepsSound(sh: Shared, p: nat, eff: Effect, sh': Shared)
    requires Sound(sh) && Does(sh, p, eff, sh')
    ensures Sound(sh')
  {
    match eff
    case InBlock(b) => BlockKeepsTimed(sh.record.value, b, sh.now);
    case TakeClaim => BlockKeepsTimed(sh.record.value, Claim, sh.now);
    case Settle(absent, cancel) =>
      BlockKeepsTimed(sh.record.value, Collect(Visible(sh), absent, cancel), sh.now);
    case _ =>
  }

  lemma StepKeepsSound(s: State, e: Event, s': State)
    requires Sound(s.sh) && Step(s, e, s')
    ensures Sound(s'.sh)
  {
    if e.Act? {
      EffectKeepsSound(s.sh, e.p, e.eff, s'.sh);
    } else if e.Commit? {
      BlockKeepsTimed(s.sh.phase.data, Submit(s.sh.phase.ok), s.sh.now);
    }
  }

  lemma {:induction false} RunKeepsSound(t: Trace, i: nat)
    requires IsRun(t) && i < |t.states|
    ensures Sound(t.states[i].sh)
  {
    if i > 0 {
      RunKeepsSound(t, i - 1);
      StepKeepsSound(t.states[i - 1], t.events[i - 1], t.states[i]);
    }
  }

  predicate Decided(w: Proc) {
    w.Reconciler? && w.rpc.Removing?
  }

  predicate DecidedIn(s: State, p: nat) {
    p in s.procs && Decided(s.procs[p])
  }

  /** Whoever decides has read a record, so there was one. */
  lemma StepToRemoving(s: State, e: Event, s': State, p: nat)
    requires SharedInv(s.sh) && Step(s, e, s') && DecidedIn(s', p)
    ensures DecidedIn(s, p) || s.sh.record.Some?
    ensures !s.sh.phase.Uncreated? ==> !s'.sh.phase.Uncreated?
  {}

  lemma {:induction false} RemovingMeansCreated(t: Trace, i: nat, p: nat)
    requires IsRun(t) && i < |t.states| && DecidedIn(t.states[i], p)
    ensures !t.states[i].sh.phase.Uncreated?
  {
    RunKeepsInv(t, i - 1);
    StepToRemoving(t.states[i - 1], t.events[i - 1], t.states[i], p);
    if DecidedIn(t.states[i - 1], p) {
      RemovingMeansCreated(t, i - 1, p);
    }
  }

  // ---- Entering after a removal ----

  /** A few more steps and the workload is entered, whatever is on disk. */
  predicate AboutToEnter(w: Proc) {
    w == Wrapper(Loaded, false) || w == Wrapper(Preparing, false) || (w.Wrapper? && w.wpc.Launching?)
  }

  predicate NoWayIn(s: State) {
    !s.sh.snapshot && !s.sh.phase.Uncreated? && forall p | p in s.procs :: !AboutToEnter(s.procs[p])
  }

  lemma NoWayInStays(s: State, e: Event, s': State)
    requires NoWayIn(s) && Step(s, e, s')
    ensures NoWayIn(s') && s'.sh.entered == s.sh.entered
  {}

  /** Without its snapshot an execution is not entered, whatever the verdicts of later probes. */
  lemma {:induction false} NoEntryWithoutSnapshot(t: Trace, i: nat, j: nat)
    requires IsRun(t) && i <= j < |t.states| && NoWayIn(t.states[i])
    ensures NoWayIn(t.states[j]) && t.states[j].sh.entered == t.states[i].sh.entered
  {
    if i < j {
      NoEntryWithoutSnapshot(t, i, j - 1);
      NoWayInStays(t.states[j - 1], t.events[j - 1], t.states[j]);
    }
  }

  /** From wherever it is, such a process gets to the start of the workload. */
  lemma LeadsPrepared(t: Trace, p: nat) returns (s: State)
    requires IsHonestRun(t) && p in End(t).procs && AboutToEnter(End(t).procs[p])
    ensures Leads(t, s) && s.sh.entered == End(t).sh.entered
    ensures p in s.procs && s.procs[p].Wrapper? && s.procs[p].wpc.Launching?
  {
    s := End(t);
    LeadsToItsEnd(t);
    if s.procs[p].wpc.Launching? {
      return;
    }
    assert At(s, p, s.procs[p]) == s;
    if s.procs[p].wpc.Loaded? {
      var sh := s.sh.(runs := s.sh.runs + [Run(Running, None)], stored := true);
      LeadsByWrapper(t, s, p, Loaded, RecordRun, sh, Preparing);
      s := s.(sh := sh);
    }
    LeadsByWrapper(t, s, p, Preparing, Quiet, s.sh, Launching);
    s := At(s, p, Wrapper(Launching, false));
  }

  lemma PreparedEnters(t: Trace, p: nat)
    requires IsHonestRun(t) && p in End(t).procs && AboutToEnter(End(t).procs[p])
    ensures exists s :: Leads(t, s) && s.sh.entered > End(t).sh.entered
  {
    var s := LeadsPrepared(t, p);
    var sh := s.sh.(entered := s.sh.entered + 1);
    ActStep(s, p, EnterWorkload, sh, s.procs[p].(wpc := Working));
    LeadsOn(t, s, Act(p, EnterWorkload), At(s.(sh := sh), p, s.procs[p].(wpc := Working)));
  }

  predicate EndsInRemoval(t: Trace) {
    t.events != [] && t.events[|t.events| - 1].Act? && t.events[|t.events| - 1].eff.RemoveFiles?
  }

  /**
   * After a removal the workload can still be entered if and only if some wrapper had already
   * read the snapshot, had not started the workload yet, and is past its look at the
   * cancellation or not signalled.
   */
  lemma EntryAfterRemoval(t: Trace)
    requires IsHonestRun(t) && EndsInRemoval(t)
    ensures (exists s :: Leads(t, s) && s.sh.entered > End(t).sh.entered)
        <==> (exists p | p in End(t).procs :: AboutToEnter(End(t).procs[p]))
  {
    var n := |t.events| - 1;
    assert Step(t.states[n], t.events[n], t.states[n + 1]);
    RemovingMeansCreated(t, n, t.events[n].p);
    if exists p | p in End(t).procs :: AboutToEnter(End(t).procs[p]) {
      var p :| p in End(t).procs && AboutToEnter(End(t).procs[p]);
      PreparedEnters(t, p);
    } else {
      forall s | Leads(t, s) ensures s.sh.entered == End(t).sh.entered {
        var u :| ContinuesTo(u, t, s);
        assert u.states[|t.states| - 1] == End(t);
        NoEntryWithoutSnapshot(u, |t.states| - 1, |u.states| - 1);
      }
    }
  }

  // ---- What prune reads when it selects ----

  predicate Spent(d: Record) {
    d.claimed || d.cancelRequested
  }

  /** Nobody holds the claim, and no copy of the record can be claimed, now or after an answer. */
  predicate Barred(s: State) {
    && !s.sh.phase.Uncreated? && !LiveClaim(s)
    && (s.sh.record.Some? ==>
          Spent(s.sh.record.value) || (Terminal(s.sh.record.value.status) && Over(s.sh)))
    && (s.sh.phase.Holding? ==> Spent(s.sh.phase.data))
  }

  /** What a record is spent by is never withdrawn. */
  lemma SpentStays(sh: Shared, p: nat, eff: Effect, sh': Shared)
    requires Does(sh, p, eff, sh') && sh.record.Some? && Spent(sh.record.value)
    ensures sh'.record.Some? ==> Spent(sh'.record.value)
  {
    match eff
    case InBlock(block) => Ratchet(sh.record.value, block, sh.now);
    case TakeClaim => Ratchet(sh.record.value, Claim, sh.now);
    case Settle(absent, cancel) => Ratchet(sh.record.value, Collect(Visible(sh), absent, cancel), sh.now);
    case _ =>
  }

  /** A process without the claim cannot withdraw what bars the record. */
  lemma StrangerKeepsBarred(s: State, e: Event, s': State)
    requires Inv(s) && Barred(s) && Step(s, e, s') && e.Act?
    ensures Barred(s') && s'.sh.entered == s.sh.entered
  {
    var w := s.procs[e.p];
    assert ProcInv(s.sh, e.p, w);
    assert !HoldsClaim(w);
    ProgramOfStranger(s.sh, e.p, w, e.eff, s'.procs[e.p]);
    StrangersEffect(s.sh, e.p, e.eff, s'.sh);
    StrangerKeepsClaims(s, e, s');
    if s.sh.record.Some? && Spent(s.sh.record.value) {
      SpentStays(s.sh, e.p, e.eff, s'.sh);
    }
  }

  lemma StepKeepsBarred(s: State, e: Event, s': State)
    requires Inv(s) && Barred(s) && Step(s, e, s')
    ensures Barred(s') && s'.sh.entered == s.sh.entered
  {
    if e.Act? {
      StrangerKeepsBarred(s, e, s');
    } else {
      assert LiveClaim(s') ==> LiveClaim(s);
    }
  }

  predicate KeepsBarred(s: State, s': State) {
    Barred(s) ==> Barred(s') && s'.sh.entered == s.sh.entered
  }

  lemma {:induction false} BarredAlong(states: seq<State>, i: nat, j: nat)
    requires i <= j < |states| && Barred(states[i])
    requires forall k | i <= k < j :: KeepsBarred(states[k], states[k + 1])
    ensures Barred(states[j]) && states[j].sh.entered == states[i].sh.entered
  {
    if i < j {
      BarredAlong(states, i, j - 1);
      assert KeepsBarred(states[j - 1], states[j - 1 + 1]);
    }
  }

  lemma RunKeepsBarred(t: Trace, k: nat)
    requires IsRun(t) && k < |t.events|
    ensures KeepsBarred(t.states[k], t.states[k + 1])
  {
    RunKeepsInv(t, k);
    if Barred(t.states[k]) {
      StepKeepsBarred(t.states[k], t.events[k], t.states[k + 1]);
    }
  }

  lemma BarredForGood(t: Trace, i: nat, j: nat)
    requires IsRun(t) && i <= j < |t.states| && Barred(t.states[i])
    ensures Barred(t.states[j]) && t.states[j].sh.entered == t.states[i].sh.entered
  {
    forall k | i <= k < j ensures KeepsBarred(t.states[k], t.states[k + 1]) {
      RunKeepsBarred(t, k);
    }
    BarredAlong(t.states, i, j);
  }

  /** The run ends as prune p has read a record that qualifies, and decides to remove it. */
  predicate JustSelected(t: Trace, p: nat) {
    && IsRun(t) && t.events != [] && t.events[|t.events| - 1] == Act(p, Quiet)
    && p in End(t).procs && Decided(End(t).procs[p])
  }

  lemma SelectionReadsTheRecord(t: Trace, p: nat)
    requires JustSelected(t, p)
    ensures var sh, w := End(t).sh, End(t).procs[p];
      sh.record == Some(w.rpc.seen) && Terminal(w.rpc.seen.status) && w.rpc.seen.cleanup.Collected?
  {
    var n := |t.events| - 1;
    assert Step(t.states[n], t.events[n], t.states[n + 1]);
  }

  /** The record prune read is neither claimed nor cancelled, and submission has yet to answer. */
  predicate Revivable(sh: Shared) {
    sh.record.Some? && !Spent(sh.record.value) && (sh.phase.Created? || sh.phase.Holding?)
  }

  lemma SelectionBars(t: Trace, p: nat)
    requires IsHonestRun(t) && JustSelected(t, p) && !Revivable(End(t).sh)
    ensures Barred(End(t))
  {
    SelectionReadsTheRecord(t, p);
    HonestRunKeepsInv(t, |t.states| - 1);
  }

  predicate RemovesThenEnters(u: Trace, p: nat, k: nat, j: nat) {
    && k < |u.events| && k + 1 < |u.states| && j < |u.states| && k < j
    && u.events[k] == Act(p, RemoveFiles)
    && u.states[j].sh.entered > u.states[k + 1].sh.entered
  }

  /** From some step on, prune p removes the execution and the workload is entered after that. */
  ghost predicate EntersAfterRemoval(u: Trace, p: nat, from: nat) {
    exists k, j :: from <= k && RemovesThenEnters(u, p, k, j)
  }

  lemma BarredStaysOut(t: Trace, p: nat, u: Trace)
    requires IsHonestRun(t) && Barred(End(t)) && Continues(u, t)
    ensures !EntersAfterRemoval(u, p, |t.events|)
  {
    var n := |t.states| - 1;
    assert u.states[n] == End(t);
    forall k, j | n <= k && RemovesThenEnters(u, p, k, j) ensures false {
      BarredForGood(u, n, k + 1);
      BarredForGood(u, n, j);
    }
  }

  lemma RevivedAndEntered(t: Trace, p: nat) returns (u: Trace)
    requires IsHonestRun(t) && JustSelected(t, p) && Revivable(End(t).sh)
    ensures Continues(u, t) && EntersAfterRemoval(u, p, |t.events|)
  {
    var s := End(t);
    RunKeepsInv(t, |t.states| - 1);
    RunKeepsSound(t, |t.states| - 1);
    LeadsToItsEnd(t);
    var ok := s.sh.phase.Created? || s.sh.phase.ok;
    LeadsByAnswer(t, s, ok);
    var q := FreshPid(s.procs.Keys);
    var sh := LeadsToLaunch(t, s.(sh := Answered(s.sh, ok)), q);
    u := RemovedAndEntered(t, State(sh, s.procs[q := Wrapper(Launching, false)]), p, q);
  }

  lemma RemovedAndEntered(t: Trace, s: State, p: nat, q: nat) returns (u: Trace)
    requires Leads(t, s) && p in s.procs && Decided(s.procs[p]) && q in s.procs
    requires s.procs[q] == Wrapper(Launching, false)
    ensures Continues(u, t) && EntersAfterRemoval(u, p, |t.events|)
  {
    var u0 :| ContinuesTo(u0, t, s);
    var s1 := State(s.sh.(record := None, snapshot := false, stored := false),
                    s.procs[p := s.procs[p].(rpc := ReconcilerGone)]);
    var s2 := State(s1.sh.(entered := s1.sh.entered + 1), s1.procs[q := Wrapper(Working, false)]);
    ThenContinues(u0, Act(p, RemoveFiles), s1);
    var u1 := Then(u0, Act(p, RemoveFiles), s1);
    ThenContinues(u1, Act(q, EnterWorkload), s2);
    u := Then(u1, Act(q, EnterWorkload), s2);
    assert RemovesThenEnters(u, p, |u0.events|, |u0.events| + 2);
  }

  /**
   * A pruned execution can be entered after prune has removed it if and only if the record that
   * prune read was neither claimed nor cancelled and submission had yet to answer: then the
   * answer makes the execution claimable again before the removal.  Executions whose submitter
   * died, or has answered, never run after prune has selected them.
   */
  lemma PrunedNeverRunsAgain(t: Trace, p: nat)
    requires IsHonestRun(t) && JustSelected(t, p)
    ensures (exists u :: Continues(u, t) && EntersAfterRemoval(u, p, |t.events|)) <==> Revivable(End(t).sh)
  {
    if Revivable(End(t).sh) {
      var u := RevivedAndEntered(t, p);
    } else {
      SelectionBars(t, p);
      forall u | Continues(u, t) ensures !EntersAfterRemoval(u, p, |t.events|) {
        BarredStaysOut(t, p, u);
      }
    }
  }
}
