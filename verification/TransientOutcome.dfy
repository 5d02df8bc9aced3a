/**
 * What runs of the transient protocol keep under honest verdicts (TransientProtocol.Honest):
 * terminal outcomes are final and agree with the run history.
 */
module TransientOutcome {
  import opened Common
  import opened TransientRecord
  import opened TransientProtocol
  import opened TransientContinuations

  // ---- The invariant ----

  predicate Settled(s: State) {
    s.sh.record.Some? && Terminal(s.sh.record.value.status)
  }

  predicate FinalRun(sh: Shared) {
    sh.stored && |sh.runs| == 1 && Terminal(sh.runs[0].status)
  }

  predicate SameOutcome(d: Record, d': Record) {
    d'.status == d.status && d'.exitCode == d.exitCode && d'.finishedAt == d.finishedAt
  }

  predicate SameAsRun(d: Record, run: Run) {
    d.status == run.status && d.exitCode == run.exitCode
  }

  /** An error while an outcome was being announced. */
  predicate AnnouncementFailed(sh: Shared, d: Record, run: Run) {
    run.status in sh.announced && d.status.Errored? && d.exitCode == Some(1)
  }

  predicate OutcomeMatches(sh: Shared) {
    sh.record.Some? && Terminal(sh.record.value.status) && FinalRun(sh) ==>
      SameAsRun(sh.record.value, sh.runs[0]) || AnnouncementFailed(sh, sh.record.value, sh.runs[0])
  }

  predicate HonestInv(s: State) {
    && (Settled(s) ==> !LiveClaim(s))
    && OutcomeMatches(s.sh)
  }

  predicate OwnersEffect(eff: Effect) {
    || eff.RecordRun? || eff.EnterWorkload? || eff.FinaliseRun?
    || (eff.InBlock? && OwnersBlock(eff.block))
  }

  predicate RecoveryEffect(sh: Shared, eff: Effect) {
    eff == InBlock(Recover(Visible(sh))) || (eff.Settle? && eff.absent)
  }

  /** Only the claim's owner has an owner's effect, and only a verdict leads to a recovery. */
  lemma ProgramOfStranger(sh: Shared, p: nat, w: Proc, eff: Effect, w': Proc)
    requires Moves(sh, w, eff, w') && !HoldsClaim(w)
    ensures !OwnersEffect(eff) && !(eff.InBlock? && (eff.block.Submit? || eff.block.Claim? || eff.block.Collect?))
    ensures eff.InBlock? && eff.block.Recover? ==> RecoveryEffect(sh, eff)
    ensures RecoveryEffect(sh, eff) ==> UsesVerdict(w)
    ensures HoldsClaim(w') ==> eff.TakeClaim?
  {}

  /** A stranger's effect keeps a terminal outcome, and makes one only by recovery. */
  lemma StrangersEffect(sh: Shared, p: nat, eff: Effect, sh': Shared)
    requires Does(sh, p, eff, sh') && !OwnersEffect(eff)
    requires !(eff.InBlock? && (eff.block.Submit? || eff.block.Claim? || eff.block.Collect?))
    requires eff.InBlock? && eff.block.Recover? ==> RecoveryEffect(sh, eff)
    ensures sh'.runs == sh.runs && sh'.phase == sh.phase && (sh'.stored ==> sh.stored)
    ensures sh'.announced == sh.announced
    ensures sh'.record.Some? ==> sh.record.Some?
    ensures sh'.record.Some? && Terminal(sh.record.value.status) ==>
              SameOutcome(sh.record.value, sh'.record.value)
    ensures sh'.record.Some? && Terminal(sh'.record.value.status) && !Terminal(sh.record.value.status) ==>
              RecoveryEffect(sh, eff) && (FinalRun(sh) ==> SameAsRun(sh'.record.value, sh.runs[0]))
    ensures eff.TakeClaim? ==> sh'.record.Some? && !Terminal(sh'.record.value.status)
    ensures !eff.TakeClaim? ==> sh'.claimant == sh.claimant
  {
    if eff.InBlock? {
      OthersKeepOutcome(sh.record.value, eff.block, sh.now);
    } else if eff.Settle? {
      OthersKeepOutcome(sh.record.value, Collect(Visible(sh), eff.absent, eff.cancel), sh.now);
    }
  }

  lemma StrangerKeepsClaims(s: State, e: Event, s': State)
    requires Inv(s) && Step(s, e, s') && e.Act? && !HoldsClaim(s.procs[e.p])
    ensures !e.eff.TakeClaim? ==> LiveClaim(s') == LiveClaim(s)
  {
    ProgramOfStranger(s.sh, e.p, s.procs[e.p], e.eff, s'.procs[e.p]);
    StrangersEffect(s.sh, e.p, e.eff, s'.sh);
  }

  lemma StrangerKeepsHonest(s: State, e: Event, s': State)
    requires Inv(s) && HonestInv(s) && Step(s, e, s') && Honest(s, e)
    requires e.Act? && !HoldsClaim(s.procs[e.p])
    ensures HonestInv(s')
  {
    var w, w' := s.procs[e.p], s'.procs[e.p];
    ProgramOfStranger(s.sh, e.p, w, e.eff, w');
    StrangersEffect(s.sh, e.p, e.eff, s'.sh);
    StrangerKeepsClaims(s, e, s');
  }

  /** The owner gives up its claim exactly when it makes the record terminal or loses it. */
  lemma OwnersStep(sh: Shared, p: nat, w: Proc, eff: Effect, sh': Shared, w': Proc)
    requires SharedInv(sh) && ProcInv(sh, p, w) && HoldsClaim(w)
    requires sh.record.Some? ==> !Terminal(sh.record.value.status)
    requires Does(sh, p, eff, sh') && Moves(sh, w, eff, w')
    ensures w'.Wrapper? && sh'.claimant == Some(p) && sh'.phase == sh.phase
    ensures HoldsClaim(w') ==> sh'.record.Some? ==> !Terminal(sh'.record.value.status)
    ensures OutcomeMatches(sh')
  {}

  lemma OwnerKeepsHonest(s: State, e: Event, s': State)
    requires Inv(s) && HonestInv(s) && Step(s, e, s')
    requires e.Act? && HoldsClaim(s.procs[e.p])
    ensures HonestInv(s')
  {
    assert ProcInv(s.sh, e.p, s.procs[e.p]);
    assert LiveClaim(s);
    OwnersStep(s.sh, e.p, s.procs[e.p], e.eff, s'.sh, s'.procs[e.p]);
  }

  lemma OtherEventKeepsHonest(s: State, e: Event, s': State)
    requires Inv(s) && HonestInv(s) && Step(s, e, s') && !e.Act?
    ensures HonestInv(s')
  {
    assert LiveClaim(s') ==> LiveClaim(s);
  }

  lemma StepKeepsHonest(s: State, e: Event, s': State)
    requires Inv(s) && HonestInv(s) && Step(s, e, s') && Honest(s, e)
    ensures HonestInv(s')
  {
    if !e.Act? {
      OtherEventKeepsHonest(s, e, s');
    } else if HoldsClaim(s.procs[e.p]) {
      OwnerKeepsHonest(s, e, s');
    } else {
      StrangerKeepsHonest(s, e, s');
    }
  }

  lemma {:induction false} HonestRunKeepsInv(t: Trace, i: nat)
    requires IsHonestRun(t) && i < |t.states|
    ensures Inv(t.states[i]) && HonestInv(t.states[i])
  {
    RunKeepsInv(t, i);
    if i > 0 {
      HonestRunKeepsInv(t, i - 1);
      StepKeepsHonest(t.states[i - 1], t.events[i - 1], t.states[i]);
    }
  }

  // ---- Outcomes ----

  /**
   * Whenever the record is terminal and the one run was finalised, the two agree, unless the
   * outcome is one that the task announces and the announcement raised an error.
   */
  lemma OutcomeIsTheRuns(t: Trace, i: nat)
    requires IsHonestRun(t) && i < |t.states|
    requires Settled(t.states[i]) && FinalRun(t.states[i].sh)
    ensures var sh := t.states[i].sh;
      SameAsRun(sh.record.value, sh.runs[0]) || AnnouncementFailed(sh, sh.record.value, sh.runs[0])
  {
    HonestRunKeepsInv(t, i);
  }

  predicate OutcomeAgrees(s: State) {
    Settled(s) && FinalRun(s.sh) ==> SameAsRun(s.sh.record.value, s.sh.runs[0])
  }

  lemma {:induction false} AnnouncedStays(t: Trace, i: nat)
    requires IsRun(t) && i < |t.states|
    ensures t.states[i].sh.announced == t.states[0].sh.announced
  {
    if i > 0 {
      AnnouncedStays(t, i - 1);
      assert Step(t.states[i - 1], t.events[i - 1], t.states[i]);
    }
  }

  lemma LeadsToAnnouncement(t: Trace, s: State, p: nat, run: Run)
    requires Leads(t, At(s, p, Wrapper(Launching, false))) && Free(s.sh) && s.sh.record.Some? && |s.sh.runs| == 1
    requires LateOutcome(run, false) && run.status in s.sh.announced
    ensures exists s' :: Leads(t, s') && !OutcomeAgrees(s')
  {
    var finalised := Finished(s.sh, run);
    var broken := finalised.(record := Some(Apply(s.sh.record.value, Break, s.sh.now)));
    LeadsToFinalised(t, s, p, run);
    LeadsByWrapper(t, s.(sh := finalised), p, Finalised(run), Quiet, finalised, Failing);
    LeadsByWrapper(t, s.(sh := finalised), p, Failing, InBlock(Break), broken, Closing);
    assert !OutcomeAgrees(At(s.(sh := broken), p, Wrapper(Closing, false)));
  }

  lemma AnnouncedCanDisagree(t: Trace)
    requires IsHonestRun(t) && t.events == [] && End(t).sh.announced != {}
    ensures exists s :: Leads(t, s) && !OutcomeAgrees(s)
  {
    var s := End(t);
    LeadsToItsEnd(t);
    var created := s.(sh := s.sh.(record := Some(FRESH), phase := Created, snapshot := true));
    LeadsOn(t, s, Create, created);
    LeadsByAnswer(t, created, true);
    var answered := created.(sh := Answered(created.sh, true));
    var sh := LeadsToLaunch(t, answered, 0);
    var launching := State(sh, map[]);
    assert At(launching, 0, Wrapper(Launching, false)) == State(sh, answered.procs[0 := Wrapper(Launching, false)]);
    var run := if Succeeded in s.sh.announced then Run(Succeeded, Some(0)) else Run(Failed, Some(1));
    assert run.status in s.sh.announced by {
      var status :| status in s.sh.announced;
    }
    LeadsToAnnouncement(t, launching, 0, run);
  }

  /**
   * From its first state on, an execution's terminal record agrees with its finalised run
   * whatever happens, if and only if its task announces no outcome.
   */
  lemma AgreesExactlyUnannounced(t: Trace)
    requires IsHonestRun(t) && t.events == []
    ensures (forall s | Leads(t, s) :: OutcomeAgrees(s)) <==> End(t).sh.announced == {}
  {
    if End(t).sh.announced == {} {
      forall s | Leads(t, s) ensures OutcomeAgrees(s) {
        var u :| ContinuesTo(u, t, s);
        assert u.states[0] == End(t);
        AnnouncedStays(u, |u.states| - 1);
        HonestRunKeepsInv(u, |u.states| - 1);
      }
    } else {
      AnnouncedCanDisagree(t);
    }
  }

  /** Submission has written its answer, or died before it could: its block will not run any more. */
  predicate Over(sh: Shared) {
    sh.phase.Committed? || sh.phase.SubmitterDead?
  }

  predicate OutcomeKept(s: State, s': State) {
    Settled(s) && s'.sh.record.Some? ==> SameOutcome(s.sh.record.value, s'.sh.record.value)
  }

  /** Every step but submission's answer keeps a terminal outcome. */
  lemma StepKeepsOutcome(s: State, e: Event, s': State)
    requires Inv(s) && HonestInv(s) && Step(s, e, s') && !e.Commit?
    ensures OutcomeKept(s, s') && (Over(s.sh) ==> Over(s'.sh))
    ensures s.sh.record.None? && !e.Create? ==> s'.sh.record.None?
  {
    if e.Act? {
      assert ProcInv(s.sh, e.p, s.procs[e.p]);
      if HoldsClaim(s.procs[e.p]) {
        assert LiveClaim(s);
      } else {
        ProgramOfStranger(s.sh, e.p, s.procs[e.p], e.eff, s'.procs[e.p]);
        StrangersEffect(s.sh, e.p, e.eff, s'.sh);
      }
    }
  }

  lemma RunKeepsOutcome(t: Trace, i: nat)
    requires IsHonestRun(t) && i < |t.events| && Over(t.states[i].sh)
    ensures OutcomeKept(t.states[i], t.states[i + 1]) && Over(t.states[i + 1].sh)
    ensures t.states[i].sh.record.None? ==> t.states[i + 1].sh.record.None?
  {
    HonestRunKeepsInv(t, i);
    StepKeepsOutcome(t.states[i], t.events[i], t.states[i + 1]);
  }

  /** Once submission's block is over, it stays over, the outcome is kept, and a removed record does not return. */
  predicate KeepsOutcome(s: State, s': State) {
    Over(s.sh) ==> Over(s'.sh) && OutcomeKept(s, s') && (s.sh.record.None? ==> s'.sh.record.None?)
  }

  lemma {:induction false} OutcomeAlong(states: seq<State>, i: nat, j: nat)
    requires i <= j < |states| && Over(states[i].sh) && Settled(states[i])
    requires forall k | i <= k < j :: KeepsOutcome(states[k], states[k + 1])
    ensures Over(states[j].sh) && OutcomeKept(states[i], states[j])
  {
    if i < j {
      OutcomeAlong(states, i, j - 1);
      assert KeepsOutcome(states[j - 1], states[j - 1 + 1]);
    }
  }

  /** Once submission has answered or died, a terminal outcome never changes again. */
  lemma TerminalIsFinal(t: Trace, i: nat, j: nat)
    requires IsHonestRun(t) && i <= j < |t.states|
    requires Over(t.states[i].sh) && Settled(t.states[i])
    ensures Over(t.states[j].sh) && OutcomeKept(t.states[i], t.states[j])
  {
    forall k | i <= k < j ensures KeepsOutcome(t.states[k], t.states[k + 1]) {
      if Over(t.states[k].sh) {
        RunKeepsOutcome(t, k);
      }
    }
    OutcomeAlong(t.states, i, j);
  }

  /**
   * A terminal outcome is final, whatever follows, if and only if submission has answered or
   * died: otherwise its block can still overwrite the status.
   */
  lemma FinalExactlyOnceOver(t: Trace)
    requires IsHonestRun(t) && Settled(End(t))
    ensures (forall s | Leads(t, s) :: OutcomeKept(End(t), s)) <==> Over(End(t).sh)
  {
    var s := End(t);
    RunKeepsInv(t, |t.states| - 1);
    if Over(s.sh) {
      forall s' | Leads(t, s') ensures OutcomeKept(s, s') {
        var u :| ContinuesTo(u, t, s');
        assert u.states[|t.states| - 1] == s;
        TerminalIsFinal(u, |t.states| - 1, |u.states| - 1);
      }
    } else {
      LeadsToItsEnd(t);
      var ok := s.sh.phase.Created? || s.sh.phase.ok;
      LeadsByAnswer(t, s, ok);
      assert !OutcomeKept(s, s.(sh := Answered(s.sh, ok)));
    }
  }

  // ---- Collection ----

  predicate CollectedIsTerminal(s: State) {
    s.sh.record.Some? && s.sh.record.value.cleanup.Collected? ==> Terminal(s.sh.record.value.status)
  }

  lemma BlockMarksTheTerminal(d: Record, b: Block, now: int)
    requires !b.Submit? && Apply(d, b, now).cleanup.Collected?
    ensures Terminal(Apply(d, b, now).status) || d.cleanup.Collected?
  {}

  lemma BlockCollectsTheTerminal(sh: Shared, p: nat, eff: Effect, sh': Shared)
    requires Does(sh, p, eff, sh') && !(eff.InBlock? && (eff.block.Submit? || eff.block.Collect?))
    requires sh.record.Some? && sh'.record.Some? && sh'.record.value.cleanup.Collected?
    ensures Terminal(sh'.record.value.status) || sh.record.value.cleanup.Collected?
  {
    match eff
    case InBlock(b) => BlockMarksTheTerminal(sh.record.value, b, sh.now);
    case TakeClaim => BlockMarksTheTerminal(sh.record.value, Claim, sh.now);
    case Settle(absent, cancel) =>
      BlockMarksTheTerminal(sh.record.value, Collect(Visible(sh), absent, cancel), sh.now);
    case _ =>
  }

  /** Every step but submission's answer keeps "collected means terminal". */
  lemma StepKeepsCollected(s: State, e: Event, s': State)
    requires Inv(s) && HonestInv(s) && Step(s, e, s') && !e.Commit? && CollectedIsTerminal(s)
    ensures CollectedIsTerminal(s')
  {
    StepKeepsOutcome(s, e, s');
    if e.Act? && s.sh.record.Some? && s'.sh.record.Some? && s'.sh.record.value.cleanup.Collected? {
      ProgramIsEntitled(s.sh, e.p, s.procs[e.p], e.eff, s'.procs[e.p]);
      BlockCollectsTheTerminal(s.sh, e.p, e.eff, s'.sh);
    }
  }

  /** Submission's block overwrites the status but not the cleanup field. */
  predicate AnswersCollected(t: Trace, k: nat)
    requires k < |t.states|
  {
    && k < |t.events| && t.events[k].Commit?
    && t.states[k].sh.phase.Holding? && t.states[k].sh.phase.data.cleanup.Collected?
  }

  lemma AnswerAndCollection(s: State, s': State)
    requires Step(s, Commit, s')
    ensures s.sh.phase.Holding? && (CollectedIsTerminal(s') <==> !s.sh.phase.data.cleanup.Collected?)
  {}

  lemma RunKeepsCollected(t: Trace, i: nat)
    requires IsHonestRun(t) && i < |t.events| && CollectedIsTerminal(t.states[i])
    ensures CollectedIsTerminal(t.states[i + 1]) <==> !AnswersCollected(t, i)
  {
    HonestRunKeepsInv(t, i);
    if t.events[i].Commit? {
      AnswerAndCollection(t.states[i], t.states[i + 1]);
    } else {
      StepKeepsCollected(t.states[i], t.events[i], t.states[i + 1]);
    }
  }

  lemma {:induction false} CollectedIsTerminalUntil(t: Trace, j: nat)
    requires IsHonestRun(t) && j < |t.states| && forall k | 0 <= k < j :: !AnswersCollected(t, k)
    ensures CollectedIsTerminal(t.states[j])
  {
    if j > 0 {
      CollectedIsTerminalUntil(t, j - 1);
      RunKeepsCollected(t, j - 1);
    }
  }

  /**
   * "Collected" implies a terminal status in every state of a run, before and after submission
   * answers or dies, if and only if submission never answers for an execution that a reconcile
   * has marked collected.
   */
  lemma CollectedMeansTerminal(t: Trace)
    requires IsHonestRun(t)
    ensures (forall j | 0 <= j < |t.states| :: CollectedIsTerminal(t.states[j]))
        <==> (forall k | 0 <= k < |t.events| :: !AnswersCollected(t, k))
  {
    if forall j | 0 <= j < |t.states| :: CollectedIsTerminal(t.states[j]) {
      forall k | 0 <= k < |t.events| ensures !AnswersCollected(t, k) {
        assert CollectedIsTerminal(t.states[k]) && CollectedIsTerminal(t.states[k + 1]);
        RunKeepsCollected(t, k);
      }
    }
    if forall k | 0 <= k < |t.events| :: !AnswersCollected(t, k) {
      forall j | 0 <= j < |t.states| ensures CollectedIsTerminal(t.states[j]) {
        CollectedIsTerminalUntil(t, j);
      }
    }
  }
}
