/**
 * The scheduler's objects behind the probes: when truthful answers are honest verdicts.
 *
 * Submission registers a timer and a service once.  A loaded timer keeps the service it
 * triggers loaded.  The service is busy with one wrapper at a time, then ends, when the stop
 * hook runs, and can be forgotten when it is idle and its timer is gone; a timer that is gone
 * does not come back.  Scheduler moves happen while the clock ticks.  A reconcile asks for the
 * timer, and in a later step for the service.
 */
module TransientScheduler {
  import opened Common
  import opened TransientRecord
  import opened TransientProtocol
  import opened TransientContinuations

  datatype Service = Absent | Idle | Busy(p: nat) | Ending

  datatype Objects = Objects(timer: bool, service: Service)

  const NOTHING := Objects(false, Absent)

  /** A wrapper that holds the claim, or that can still take it. */
  predicate MayHold(w: Proc) {
    HoldsClaim(w) || (w.Wrapper? && w.wpc.Delivered?)
  }

  predicate MayHoldIn(s: State, p: nat) {
    p in s.procs && MayHold(s.procs[p])
  }

  predicate HookRuns(s: State) {
    exists h | h in s.procs :: s.procs[h] == Finisher(HookStarted)
  }

  predicate SchedulerMoves(s: State, o: Objects, o': Objects) {
    || (o' == o.(timer := false))
    || (o.service.Idle? && !o.timer && o' == o.(service := Absent))
    || (o.service.Busy? && !MayHoldIn(s, o.service.p) && o' == o.(service := Ending))
    || (o.service.Ending? && !HookRuns(s) && o' == o.(service := Idle))
  }

  /** An answer tells the truth at the time of the probe. */
  predicate ProbeIsTrue(w: Proc, w': Proc, o: Objects) {
    w.Reconciler? && w'.Reconciler? ==>
      && (w.rpc.ProbingClaim? && w'.rpc.Recovering? ==> o.service.Absent? || o.service.Idle?)
      && (w.rpc.Probing? && w'.rpc.ProbingService? ==> w'.rpc.timer == o.timer)
      && (w.rpc.ProbingService? && w'.rpc.Settling? ==> w'.rpc.absent == (!w.rpc.timer && o.service.Absent?))
  }

  predicate ObjectsStep(s: State, o: Objects, e: Event, s': State, o': Objects) {
    match e
    case Register(_) => o'.service.Idle? || o' == NOTHING
    case Spawn(p, w) =>
      if w.Wrapper? then o.service.Idle? && o' == o.(service := Busy(p))
      else o' == o && (w.Finisher? ==> o.service.Ending?)
    case Tick(_) => o' == o || SchedulerMoves(s, o, o')
    case Act(p, _) => o' == o && (p in s.procs && p in s'.procs ==> ProbeIsTrue(s.procs[p], s'.procs[p], o))
    case _ => o' == o
  }

  /** A run of the protocol above a scheduler whose answers are true. */
  predicate IsScheduledRun(t: Trace, objects: seq<Objects>) {
    && IsRun(t) && |objects| == |t.states| && objects[0] == NOTHING
    && forall i | 0 <= i < |t.events| ::
         ObjectsStep(t.states[i], objects[i], t.events[i], t.states[i + 1], objects[i + 1])
  }

  predicate Unregistered(sh: Shared) {
    sh.phase.Uncreated? || sh.phase.Created?
  }

  /** A reconcile that finds both absent before anything is registered. */
  predicate AsksEarly(s: State, e: Event, s': State) {
    && e.Act? && e.p in s.procs && e.p in s'.procs && Unregistered(s.sh)
    && s.procs[e.p].Reconciler? && s.procs[e.p].rpc.ProbingService?
    && s'.procs[e.p].Reconciler? && s'.procs[e.p].rpc == Settling(true)
  }

  /** The record is there, and nobody has asked for its cancellation. */
  predicate Open(sh: Shared) {
    sh.record.Some? && !sh.record.value.cancelRequested
  }

  // ---- Before the registration ----

  /** Whoever claimed is known, in every copy of the record. */
  predicate ClaimsKnown(sh: Shared) {
    && (sh.record.Some? && sh.record.value.claimed ==> sh.claimant.Some?)
    && (sh.phase.Holding? && sh.phase.data.claimed ==> sh.claimant.Some?)
  }

  /** A reconcile that has read the record. */
  predicate HasRead(w: Proc) {
    w.Reconciler? && !w.rpc.Discovering? && !w.rpc.Reading? && !w.rpc.ReconcilerGone?
  }

  predicate EarlyProc(sh: Shared, w: Proc) {
    && (Unregistered(sh) ==> !MayHold(w))
    && (sh.phase.Uncreated? ==> !HasRead(w))
  }

  /** Before the registration there are no objects, no wrappers and no claims. */
  predicate EarlyInv(s: State, o: Objects) {
    && ClaimsKnown(s.sh)
    && (o.timer ==> !o.service.Absent?)
    && (Unregistered(s.sh) ==> o == NOTHING && s.sh.claimant.None?)
    && forall p | p in s.procs :: EarlyProc(s.sh, s.procs[p])
  }

  lemma ActKeepsClaimsKnown(sh: Shared, p: nat, w: Proc, eff: Effect, sh': Shared, w': Proc)
    requires ClaimsKnown(sh) && Does(sh, p, eff, sh') && Moves(sh, w, eff, w')
    ensures ClaimsKnown(sh') && sh'.phase == sh.phase
  {}

  lemma ActKeepsEarlyProc(sh: Shared, p: nat, w: Proc, eff: Effect, sh': Shared, w': Proc)
    requires SharedInv(sh) && Does(sh, p, eff, sh') && Moves(sh, w, eff, w') && EarlyProc(sh, w)
    ensures EarlyProc(sh', w') && (Unregistered(sh) ==> sh'.claimant == sh.claimant)
  {}

  lemma ActKeepsEarly(s: State, o: Objects, e: Event, s': State)
    requires Inv(s) && EarlyInv(s, o) && Step(s, e, s') && e.Act?
    ensures EarlyInv(s', o)
  {
    assert EarlyProc(s.sh, s.procs[e.p]);
    ActKeepsClaimsKnown(s.sh, e.p, s.procs[e.p], e.eff, s'.sh, s'.procs[e.p]);
    ActKeepsEarlyProc(s.sh, e.p, s.procs[e.p], e.eff, s'.sh, s'.procs[e.p]);
    forall q | q in s'.procs ensures EarlyProc(s'.sh, s'.procs[q]) {
      assert q != e.p ==> EarlyProc(s.sh, s.procs[q]);
    }
  }

  lemma OtherEventKeepsEarly(s: State, o: Objects, e: Event, s': State, o': Objects)
    requires Inv(s) && EarlyInv(s, o) && Step(s, e, s') && !e.Act? && ObjectsStep(s, o, e, s', o')
    ensures EarlyInv(s', o')
  {
    forall q | q in s'.procs ensures EarlyProc(s'.sh, s'.procs[q]) {
      assert q in s.procs ==> EarlyProc(s.sh, s.procs[q]);
    }
  }

  lemma StepKeepsEarly(s: State, o: Objects, e: Event, s': State, o': Objects)
    requires Inv(s) && EarlyInv(s, o) && Step(s, e, s') && ObjectsStep(s, o, e, s', o')
    ensures EarlyInv(s', o')
  {
    if e.Act? {
      ActKeepsEarly(s, o, e, s');
    } else {
      OtherEventKeepsEarly(s, o, e, s', o');
    }
  }

  lemma {:induction false} RunKeepsEarly(t: Trace, objects: seq<Objects>, i: nat)
    requires IsScheduledRun(t, objects) && i < |t.states|
    ensures EarlyInv(t.states[i], objects[i])
  {
    if i > 0 {
      RunKeepsEarly(t, objects, i - 1);
      RunKeepsInv(t, i - 1);
      StepKeepsEarly(t.states[i - 1], objects[i - 1], t.events[i - 1], t.states[i], objects[i]);
    }
  }

  // ---- Executions that nobody can claim ----

  /** Nobody has claimed, and every copy of the record, if any is left, is cancelled. */
  predicate Unclaimable(sh: Shared) {
    && !sh.phase.Uncreated? && sh.claimant.None?
    && (sh.record.Some? ==> sh.record.value.cancelRequested)
    && (sh.phase.Holding? ==> sh.phase.data.cancelRequested)
  }

  lemma EffectKeepsUnclaimable(sh: Shared, p: nat, eff: Effect, sh': Shared)
    requires Unclaimable(sh) && Does(sh, p, eff, sh')
    ensures Unclaimable(sh')
  {
    match eff
    case InBlock(block) => Ratchet(sh.record.value, block, sh.now);
    case Settle(absent, cancel) => Ratchet(sh.record.value, Collect(Visible(sh), absent, cancel), sh.now);
    case _ =>
  }

  lemma StepKeepsUnclaimable(s: State, e: Event, s': State)
    requires Unclaimable(s.sh) && Step(s, e, s')
    ensures Unclaimable(s'.sh)
  {
    if e.Act? {
      EffectKeepsUnclaimable(s.sh, e.p, e.eff, s'.sh);
    }
  }

  predicate KeepsUnclaimable(s: State, s': State) {
    Unclaimable(s.sh) ==> Unclaimable(s'.sh)
  }

  lemma RunKeepsUnclaimable(t: Trace, k: nat)
    requires IsRun(t) && k < |t.events|
    ensures KeepsUnclaimable(t.states[k], t.states[k + 1])
  {
    if Unclaimable(t.states[k].sh) {
      StepKeepsUnclaimable(t.states[k], t.events[k], t.states[k + 1]);
    }
  }

  lemma {:induction false} UnclaimableAlong(states: seq<State>, i: nat, j: nat)
    requires i <= j < |states| && Unclaimable(states[i].sh)
    requires forall k | i <= k < j :: KeepsUnclaimable(states[k], states[k + 1])
    ensures Unclaimable(states[j].sh)
  {
    if i < j {
      UnclaimableAlong(states, i, j - 1);
      assert KeepsUnclaimable(states[j - 1], states[j - 1 + 1]);
    }
  }

  lemma UnclaimableForGood(t: Trace, i: nat, j: nat)
    requires IsRun(t) && i <= j < |t.states| && Unclaimable(t.states[i].sh)
    ensures Unclaimable(t.states[j].sh)
  {
    forall k | i <= k < j ensures KeepsUnclaimable(t.states[k], t.states[k + 1]) {
      RunKeepsUnclaimable(t, k);
    }
    UnclaimableAlong(t.states, i, j);
  }

  // ---- The invariant ----

  /** What an answer "both absent" rests on. */
  predicate AbsenceHolds(s: State, o: Objects) {
    Unclaimable(s.sh) || (!Unregistered(s.sh) && o == NOTHING)
  }

  predicate VerdictInv(s: State, o: Objects, p: nat, w: Proc) {
    && (MayHold(w) ==> o.service == Busy(p))
    && (w == Finisher(HookStarted) ==> o.service.Ending?)
    && (w.Reconciler? && w.rpc.ProbingClaim? && w.rpc.data.claimed ==> s.sh.claimant.Some?)
    && (w.Reconciler? && w.rpc.Recovering? ==> s.sh.claimant.Some? && !LiveClaim(s))
    && (w.Reconciler? && w.rpc == Settling(true) ==> AbsenceHolds(s, o))
  }

  predicate SchedulerInv(s: State, o: Objects) {
    EarlyInv(s, o) && forall p | p in s.procs :: VerdictInv(s, o, p, s.procs[p])
  }

  lemma ClaimantIsBusy(s: State, o: Objects)
    requires SchedulerInv(s, o)
    ensures LiveClaim(s) ==> o.service == Busy(s.sh.claimant.value)
  {
    if LiveClaim(s) {
      assert VerdictInv(s, o, s.sh.claimant.value, s.procs[s.sh.claimant.value]);
    }
  }

  /** Wherever a verdict is used, the claimant is dead. */
  lemma VerdictsAreHonest(s: State, o: Objects, e: Event)
    requires SchedulerInv(s, o)
    ensures Honest(s, e)
  {
    ClaimantIsBusy(s, o);
    if e.Act? && e.p in s.procs && UsesVerdict(s.procs[e.p]) {
      assert VerdictInv(s, o, e.p, s.procs[e.p]);
    }
  }

  /** A claim that is taken stays taken, and its holder does not come back to life. */
  lemma DeadStayDead(s: State, e: Event, s': State)
    requires Inv(s) && Step(s, e, s') && s.sh.claimant.Some?
    ensures s'.sh.claimant == s.sh.claimant && (!LiveClaim(s) ==> !LiveClaim(s'))
  {
    if e.Act? {
      assert ProcInv(s.sh, e.p, s.procs[e.p]);
      ClaimMoves(s.sh, e.p, s.procs[e.p], e.eff, s'.sh, s'.procs[e.p]);
    }
  }

  lemma ClaimMoves(sh: Shared, p: nat, w: Proc, eff: Effect, sh': Shared, w': Proc)
    requires SharedInv(sh) && Does(sh, p, eff, sh') && Moves(sh, w, eff, w')
    ensures sh.claimant.Some? ==> sh'.claimant == sh.claimant
    ensures HoldsClaim(w') && !HoldsClaim(w) ==> sh.claimant.None?
  {}

  lemma AbsenceStays(s: State, o: Objects, e: Event, s': State, o': Objects)
    requires AbsenceHolds(s, o) && Step(s, e, s') && ObjectsStep(s, o, e, s', o')
    ensures AbsenceHolds(s', o')
  {
    if Unclaimable(s.sh) {
      StepKeepsUnclaimable(s, e, s');
    }
  }

  /** Where the answer of the actor's own probe leads. */
  lemma ActorsAnswer(s: State, o: Objects, e: Event, s': State)
    requires Step(s, e, s') && e.Act? && ObjectsStep(s, o, e, s', o) && EarlyInv(s, o) && EarlyInv(s', o)
    requires AsksEarly(s, e, s') ==> !Open(s'.sh)
    ensures var w' := s'.procs[e.p]; w'.Reconciler? && w'.rpc == Settling(true) ==> AbsenceHolds(s', o)
  {
    assert EarlyProc(s.sh, s.procs[e.p]);
  }

  lemma ActorsPlace(s: State, o: Objects, e: Event, s': State)
    requires Step(s, e, s') && e.Act? && VerdictInv(s, o, e.p, s.procs[e.p])
    ensures var w' := s'.procs[e.p]; (MayHold(w') ==> o.service == Busy(e.p)) && w' != Finisher(HookStarted)
  {}

  /** What a reconcile carries from block to block is a copy of the record. */
  lemma ActorsCopy(s: State, o: Objects, e: Event, s': State)
    requires ClaimsKnown(s.sh) && ClaimsKnown(s'.sh) && Step(s, e, s') && e.Act? && ObjectsStep(s, o, e, s', o)
    requires VerdictInv(s, o, e.p, s.procs[e.p])
    ensures var w' := s'.procs[e.p];
      && (w'.Reconciler? && w'.rpc.ProbingClaim? && w'.rpc.data.claimed ==> s'.sh.claimant.Some?)
      && (w'.Reconciler? && w'.rpc.Recovering? ==>
            s.sh.claimant.Some? && (o.service.Absent? || o.service.Idle?))
  {}

  lemma ActorsVerdict(s: State, o: Objects, e: Event, s': State)
    requires Inv(s) && SchedulerInv(s, o) && Step(s, e, s') && e.Act? && ObjectsStep(s, o, e, s', o)
    requires EarlyInv(s', o) && (AsksEarly(s, e, s') ==> !Open(s'.sh))
    ensures VerdictInv(s', o, e.p, s'.procs[e.p])
  {
    assert VerdictInv(s, o, e.p, s.procs[e.p]);
    ActorsAnswer(s, o, e, s');
    ActorsPlace(s, o, e, s');
    ActorsCopy(s, o, e, s');
    if s'.procs[e.p].Reconciler? && s'.procs[e.p].rpc.Recovering? {
      ClaimantIsBusy(s, o);
      DeadStayDead(s, e, s');
    }
  }

  /** A step leaves what holds of the processes that do not take it. */
  lemma OthersVerdict(s: State, o: Objects, e: Event, s': State, o': Objects, q: nat)
    requires Inv(s) && SchedulerInv(s, o) && Step(s, e, s') && ObjectsStep(s, o, e, s', o')
    requires q in s.procs && q in s'.procs && s'.procs[q] == s.procs[q] && (e.Act? ==> q != e.p)
    ensures VerdictInv(s', o', q, s'.procs[q])
  {
    assert VerdictInv(s, o, q, s.procs[q]) && EarlyProc(s.sh, s.procs[q]);
    if s.procs[q].Reconciler? && s.procs[q].rpc == Settling(true) {
      AbsenceStays(s, o, e, s', o');
    }
    if s.sh.claimant.Some? {
      DeadStayDead(s, e, s');
    }
  }

  lemma ActKeepsScheduler(s: State, o: Objects, e: Event, s': State)
    requires Inv(s) && SchedulerInv(s, o) && Step(s, e, s') && e.Act? && ObjectsStep(s, o, e, s', o)
    requires AsksEarly(s, e, s') ==> !Open(s'.sh)
    ensures SchedulerInv(s', o)
  {
    ActKeepsEarly(s, o, e, s');
    forall q | q in s'.procs ensures VerdictInv(s', o, q, s'.procs[q]) {
      if q == e.p {
        ActorsVerdict(s, o, e, s');
      } else {
        OthersVerdict(s, o, e, s', o, q);
      }
    }
  }

  /** A process that is started, signalled or killed. */
  lemma ChangedVerdict(s: State, o: Objects, e: Event, s': State, o': Objects, q: nat)
    requires SchedulerInv(s, o) && Step(s, e, s') && !e.Act? && ObjectsStep(s, o, e, s', o')
    requires q in s'.procs && (q !in s.procs || s'.procs[q] != s.procs[q])
    ensures VerdictInv(s', o', q, s'.procs[q])
  {
    assert q in s.procs ==> VerdictInv(s, o, q, s.procs[q]);
  }

  lemma OtherEventKeepsScheduler(s: State, o: Objects, e: Event, s': State, o': Objects)
    requires Inv(s) && SchedulerInv(s, o) && Step(s, e, s') && !e.Act? && ObjectsStep(s, o, e, s', o')
    ensures SchedulerInv(s', o')
  {
    OtherEventKeepsEarly(s, o, e, s', o');
    forall q | q in s'.procs ensures VerdictInv(s', o', q, s'.procs[q]) {
      if q in s.procs && s'.procs[q] == s.procs[q] {
        OthersVerdict(s, o, e, s', o', q);
      } else {
        ChangedVerdict(s, o, e, s', o', q);
      }
    }
  }

  predicate Misleads(t: Trace, k: nat)
    requires k < |t.events| && k + 1 < |t.states|
  {
    AsksEarly(t.states[k], t.events[k], t.states[k + 1]) && Open(t.states[k + 1].sh)
  }

  predicate KeepsScheduler(s: State, o: Objects, s': State, o': Objects) {
    SchedulerInv(s, o) ==> SchedulerInv(s', o')
  }

  lemma RunKeepsScheduler(t: Trace, objects: seq<Objects>, k: nat)
    requires IsScheduledRun(t, objects) && k < |t.events| && !Misleads(t, k)
    ensures KeepsScheduler(t.states[k], objects[k], t.states[k + 1], objects[k + 1])
  {
    if SchedulerInv(t.states[k], objects[k]) {
      RunKeepsInv(t, k);
      if t.events[k].Act? {
        ActKeepsScheduler(t.states[k], objects[k], t.events[k], t.states[k + 1]);
      } else {
        OtherEventKeepsScheduler(t.states[k], objects[k], t.events[k], t.states[k + 1], objects[k + 1]);
      }
    }
  }

  lemma {:induction false} SchedulerAlong(states: seq<State>, objects: seq<Objects>, i: nat)
    requires i < |states| == |objects| && SchedulerInv(states[0], objects[0])
    requires forall k | 0 <= k < i :: KeepsScheduler(states[k], objects[k], states[k + 1], objects[k + 1])
    ensures SchedulerInv(states[i], objects[i])
  {
    if i > 0 {
      SchedulerAlong(states, objects, i - 1);
      assert KeepsScheduler(states[i - 1], objects[i - 1], states[i - 1 + 1], objects[i - 1 + 1]);
    }
  }

  lemma ScheduledRunKeepsInv(t: Trace, objects: seq<Objects>, i: nat)
    requires IsScheduledRun(t, objects) && i < |t.states| && forall k | 0 <= k < i :: !Misleads(t, k)
    ensures SchedulerInv(t.states[i], objects[i])
  {
    forall k | 0 <= k < i ensures KeepsScheduler(t.states[k], objects[k], t.states[k + 1], objects[k + 1]) {
      assert !Misleads(t, k);
      RunKeepsScheduler(t, objects, k);
    }
    SchedulerAlong(t.states, objects, i);
  }

  /**
   * Above a scheduler whose answers are true every verdict is honest, as long as no reconcile
   * finds both registrations absent before submission has registered anything and while the
   * record is there and not cancelled.
   */
  lemma TruthMakesHonest(t: Trace, objects: seq<Objects>)
    requires IsScheduledRun(t, objects)
    requires forall k | 0 <= k < |t.events| :: !Misleads(t, k)
    ensures IsHonestRun(t)
  {
    forall i | 0 <= i < |t.events| ensures Honest(t.states[i], t.events[i]) {
      ScheduledRunKeepsInv(t, objects, i);
      VerdictsAreHonest(t.states[i], objects[i], t.events[i]);
    }
  }

  // ---- What an early answer can lead to ----

  ghost predicate ScheduledOn(u: Trace, os: seq<Objects>, t: Trace, objects: seq<Objects>) {
    IsScheduledRun(u, os) && t.states <= u.states && t.events <= u.events && objects <= os
  }

  ghost predicate ScheduledTo(u: Trace, os: seq<Objects>, t: Trace, objects: seq<Objects>, s: State, o: Objects) {
    ScheduledOn(u, os, t, objects) && End(u) == s && os[|os| - 1] == o
  }

  /** Some scheduled continuation of the run is in this state at its end. */
  ghost predicate Reaches(t: Trace, objects: seq<Objects>, s: State, o: Objects) {
    exists u, os :: ScheduledTo(u, os, t, objects, s, o)
  }

  lemma ThenScheduled(t: Trace, objects: seq<Objects>, e: Event, s: State, o: Objects)
    requires IsScheduledRun(t, objects) && Step(End(t), e, s)
    requires ObjectsStep(End(t), objects[|objects| - 1], e, s, o)
    ensures ScheduledTo(Then(t, e, s), objects + [o], t, objects, s, o)
  {}

  lemma ReachesOn(t: Trace, objects: seq<Objects>, s: State, o: Objects, e: Event, s': State, o': Objects)
    requires Reaches(t, objects, s, o) && Step(s, e, s') && ObjectsStep(s, o, e, s', o')
    ensures Reaches(t, objects, s', o')
  {
    var u, os :| ScheduledTo(u, os, t, objects, s, o);
    ThenScheduled(u, os, e, s', o');
    assert ScheduledTo(Then(u, e, s'), os + [o'], t, objects, s', o');
  }

  lemma ReachesByAct(t: Trace, objects: seq<Objects>, s: State, o: Objects, p: nat, w: Proc,
                     eff: Effect, sh': Shared, w': Proc)
    requires Reaches(t, objects, At(s, p, w), o) && ProbeIsTrue(w, w', o)
    requires Does(s.sh, p, eff, sh') && Moves(s.sh, w, eff, w')
    ensures Reaches(t, objects, At(s.(sh := sh'), p, w'), o)
  {
    var before := At(s, p, w);
    assert At(before.(sh := sh'), p, w') == At(s.(sh := sh'), p, w');
    ActStep(before, p, eff, sh', w');
    ReachesOn(t, objects, before, o, Act(p, eff), At(s.(sh := sh'), p, w'), o);
  }

  /** Submission registers a service and answers. */
  lemma ReachesAnswered(t: Trace, objects: seq<Objects>, s: State)
    requires Reaches(t, objects, s, NOTHING) && s.sh.phase.Created? && s.sh.record.Some?
    ensures Reaches(t, objects, s.(sh := Answered(s.sh, true)), Objects(false, Idle))
  {
    var idle := Objects(false, Idle);
    var held := s.(sh := s.sh.(phase := Holding(s.sh.record.value, true)));
    ReachesOn(t, objects, s, NOTHING, Register(true), held, idle);
    ReachesOn(t, objects, held, idle, Commit, s.(sh := Answered(s.sh, true)), idle);
  }

  /** Then the service starts a wrapper that claims. */
  lemma ReachesClaimed(t: Trace, objects: seq<Objects>, s: State, q: nat)
    requires Reaches(t, objects, s, Objects(false, Idle)) && q !in s.procs
    requires Free(s.sh) && s.sh.record.Some? && Claimable(s.sh.record.value)
    ensures Reaches(t, objects, At(s.(sh := Claimed(s.sh, q)), q, Wrapper(Waiting, false)), Objects(false, Busy(q)))
  {
    var busy := Objects(false, Busy(q));
    ReachesOn(t, objects, s, Objects(false, Idle), Spawn(q, Wrapper(Delivered, false)),
              At(s, q, Wrapper(Delivered, false)), busy);
    ReachesByAct(t, objects, s, busy, q, Wrapper(Delivered, false), TakeClaim,
                 Claimed(s.sh, q), Wrapper(Waiting, false));
  }

  /** And the early answer is used against it. */
  lemma UsedAgainstTheLiving(t: Trace, objects: seq<Objects>, s: State, o: Objects, p: nat)
    returns (u: Trace, os: seq<Objects>)
    requires Reaches(t, objects, s, o) && Free(s.sh) && s.sh.record.Some? && LiveClaim(s)
    requires p in s.procs && s.procs[p].Reconciler? && s.procs[p].rpc == Settling(true)
    ensures ScheduledOn(u, os, t, objects) && !IsHonestRun(u)
  {
    var u0, os0 :| ScheduledTo(u0, os0, t, objects, s, o);
    var w := s.procs[p];
    var eff := Settle(true, w.cancel);
    var sh' := s.sh.(record := Some(Apply(s.sh.record.value, Collect(Visible(s.sh), true, w.cancel), s.sh.now)),
                     collector := Some(p));
    var w' := w.(rpc := if w.retention.Some? then Selecting(true) else ReconcilerGone);
    var s' := At(s.(sh := sh'), p, w');
    ActStep(s, p, eff, sh', w');
    ThenScheduled(u0, os0, Act(p, eff), s', o);
    u, os := Then(u0, Act(p, eff), s'), os0 + [o];
    assert !Honest(u.states[|u0.events|], u.events[|u0.events|]);
  }

  /** The run ends as a reconcile finds both absent before anything is registered. */
  predicate JustAskedEarly(t: Trace) {
    && |t.states| == |t.events| + 1 && t.events != []
    && AsksEarly(t.states[|t.events| - 1], t.events[|t.events| - 1], End(t))
  }

  lemma LeadsToALiveClaim(t: Trace, objects: seq<Objects>, s: State) returns (s': State, q: nat)
    requires Reaches(t, objects, s, NOTHING) && s.sh.phase.Created?
    requires Open(s.sh) && !s.sh.record.value.claimed
    ensures Reaches(t, objects, s', Objects(false, Busy(q))) && Free(s'.sh) && s'.sh.record.Some? && LiveClaim(s')
    ensures forall p | p in s.procs :: p in s'.procs && s'.procs[p] == s.procs[p]
  {
    ReachesAnswered(t, objects, s);
    var answered := s.(sh := Answered(s.sh, true));
    q := FreshPid(s.procs.Keys);
    ReachesClaimed(t, objects, answered, q);
    s' := At(answered.(sh := Claimed(answered.sh, q)), q, Wrapper(Waiting, false));
  }

  lemma EarlyAnswerIsUsed(t: Trace, objects: seq<Objects>) returns (u: Trace, os: seq<Objects>)
    requires IsScheduledRun(t, objects) && JustAskedEarly(t) && Open(End(t).sh)
    ensures ScheduledOn(u, os, t, objects) && !IsHonestRun(u)
  {
    var s, p := End(t), t.events[|t.events| - 1].p;
    EarlyEnd(t, objects);
    assert ScheduledTo(t, objects, t, objects, s, NOTHING);
    var claimed, q := LeadsToALiveClaim(t, objects, s);
    u, os := UsedAgainstTheLiving(t, objects, claimed, Objects(false, Busy(q)), p);
  }

  /** Where a run is that has just asked early. */
  lemma EarlyEnd(t: Trace, objects: seq<Objects>)
    requires IsScheduledRun(t, objects) && JustAskedEarly(t)
    ensures var s := End(t);
      && s.sh.phase.Created? && s.sh.claimant.None? && objects[|objects| - 1] == NOTHING
      && (s.sh.record.Some? ==> !s.sh.record.value.claimed)
  {
    var n := |t.events| - 1;
    assert Step(t.states[n], t.events[n], t.states[n + 1]);
    RunKeepsEarly(t, objects, n);
    RunKeepsEarly(t, objects, n + 1);
    assert EarlyProc(t.states[n].sh, t.states[n].procs[t.events[n].p]);
  }

  /** Nothing that is registered is unregistered again. */
  predicate KeepsRegistered(s: State, s': State) {
    Unregistered(s'.sh) ==> Unregistered(s.sh)
  }

  lemma StepKeepsRegistered(s: State, e: Event, s': State)
    requires Step(s, e, s')
    ensures KeepsRegistered(s, s')
  {}

  lemma {:induction false} UnregisteredAlong(states: seq<State>, i: nat, j: nat)
    requires i <= j < |states| && Unregistered(states[j].sh)
    requires forall k | i <= k < j :: KeepsRegistered(states[k], states[k + 1])
    ensures Unregistered(states[i].sh)
  {
    if i < j {
      assert KeepsRegistered(states[j - 1], states[j - 1 + 1]);
      UnregisteredAlong(states, i, j - 1);
    }
  }

  lemma UnregisteredBefore(t: Trace, i: nat, j: nat)
    requires IsRun(t) && i <= j < |t.states| && Unregistered(t.states[j].sh)
    ensures Unregistered(t.states[i].sh)
  {
    forall k | i <= k < j ensures KeepsRegistered(t.states[k], t.states[k + 1]) {
      StepKeepsRegistered(t.states[k], t.events[k], t.states[k + 1]);
    }
    UnregisteredAlong(t.states, i, j);
  }

  /** Without a claim no verdict is dishonest, before the early answer or after it. */
  lemma EarlyAnswerIsHarmless(t: Trace, objects: seq<Objects>, u: Trace, os: seq<Objects>)
    requires IsScheduledRun(t, objects) && JustAskedEarly(t) && !Open(End(t).sh)
    requires ScheduledOn(u, os, t, objects)
    ensures IsHonestRun(u)
  {
    var n := |t.events|;
    assert u.states[n] == End(t);
    EarlyEnd(t, objects);
    forall i | 0 <= i < |u.events| ensures Honest(u.states[i], u.events[i]) {
      if i <= n {
        UnregisteredBefore(u, i, n);
        RunKeepsEarly(u, os, i);
      } else {
        UnclaimableForGood(u, n, i);
      }
    }
  }

  /**
   * An answer "both absent" that was true because nothing was registered yet can later be used
   * against a live wrapper if and only if the record is there and not cancelled.
   */
  lemma EarlyAnswerMisleads(t: Trace, objects: seq<Objects>)
    requires IsScheduledRun(t, objects) && JustAskedEarly(t)
    ensures (exists u, os :: ScheduledOn(u, os, t, objects) && !IsHonestRun(u)) <==> Open(End(t).sh)
  {
    if Open(End(t).sh) {
      var u, os := EarlyAnswerIsUsed(t, objects);
    } else {
      forall u, os | ScheduledOn(u, os, t, objects) ensures IsHonestRun(u) {
        EarlyAnswerIsHarmless(t, objects, u, os);
      }
    }
  }

  // ---- Such an answer is possible ----

  const CREATED :=
    State(Shared(Some(FRESH), Created, true, [], false, 0, None, false, {}, None, 0, None), map[])

  const ORIGIN :=
    Trace([State(Shared(None, Uncreated, false, [], false, 0, None, false, {}, None, 0, None), map[])], [])

  lemma AskingQuietly(w: ReconcilerPc, w': ReconcilerPc)
    requires Reaches(ORIGIN, [NOTHING], At(CREATED, 0, Reconciling(None, w)), NOTHING)
    requires Moves(CREATED.sh, Reconciling(None, w), Quiet, Reconciling(None, w'))
    requires ProbeIsTrue(Reconciling(None, w), Reconciling(None, w'), NOTHING)
    ensures Reaches(ORIGIN, [NOTHING], At(CREATED, 0, Reconciling(None, w')), NOTHING)
  {
    ReachesByAct(ORIGIN, [NOTHING], CREATED, NOTHING, 0, Reconciling(None, w), Quiet,
                 CREATED.sh, Reconciling(None, w'));
  }

  lemma CreatedOccurs()
    ensures Reaches(ORIGIN, [NOTHING], CREATED, NOTHING)
  {
    assert ScheduledTo(ORIGIN, [NOTHING], ORIGIN, [NOTHING], End(ORIGIN), NOTHING);
    ReachesOn(ORIGIN, [NOTHING], End(ORIGIN), NOTHING, Create, CREATED, NOTHING);
  }

  lemma AskingForTheService()
    ensures Reaches(ORIGIN, [NOTHING], At(CREATED, 0, Reconciling(None, ProbingService(false))), NOTHING)
  {
    CreatedOccurs();
    ReachesOn(ORIGIN, [NOTHING], CREATED, NOTHING, Spawn(0, Reconciling(None, Reading)),
              At(CREATED, 0, Reconciling(None, Reading)), NOTHING);
    AskingQuietly(Reading, ProbingClaim(FRESH));
    AskingQuietly(ProbingClaim(FRESH), Stopping(FRESH));
    AskingQuietly(Stopping(FRESH), Probing);
    AskingQuietly(Probing, ProbingService(false));
  }

  lemma EarlyAnswerOccurs() returns (t: Trace, objects: seq<Objects>)
    ensures IsScheduledRun(t, objects) && JustAskedEarly(t) && Open(End(t).sh)
  {
    AskingForTheService();
    var s := At(CREATED, 0, Reconciling(None, ProbingService(false)));
    var u, os :| ScheduledTo(u, os, ORIGIN, [NOTHING], s, NOTHING);
    var s' := At(CREATED, 0, Reconciling(None, Settling(true)));
    assert At(s, 0, Reconciling(None, Settling(true))) == s';
    ActStep(s, 0, Quiet, s.sh, Reconciling(None, Settling(true)));
    ThenScheduled(u, os, Act(0, Quiet), s', NOTHING);
    t, objects := Then(u, Act(0, Quiet), s'), os + [NOTHING];
    assert t.states[|t.events| - 1] == s;
  }
}
