/**
 * Prune and registrations it saw present: when it can remove such an execution all the same.
 */
module TransientPresence {
  import opened Common
  import opened TransientRecord
  import opened TransientProtocol
  import opened TransientContinuations
  import opened TransientOutcome
  import opened TransientPruning

  predicate Settles(t: Trace, m: nat, absent: bool) {
    m < |t.events| && t.events[m].Act? && t.events[m].eff.Settle? && t.events[m].eff.absent == absent
  }

  /** The block of process p that settles registrations it saw present. */
  predicate SawPresent(t: Trace, k: nat, p: nat) {
    Settles(t, k, false) && t.events[k].p == p
  }

  /** That block found the record collected but not terminal, and so left the mark in place. */
  predicate FoundCollected(t: Trace, k: nat)
    requires k < |t.states|
  {
    && t.states[k].sh.record.Some?
    && var d := t.states[k].sh.record.value; d.cleanup.Collected? && !Terminal(d.status)
  }

  /** Another process found the registrations absent in between. */
  predicate OtherSawAbsent(t: Trace, k: nat, i: nat, p: nat)
    requires i <= |t.events|
  {
    exists m | k < m < i :: Settles(t, m, true) && t.events[m].p != p
  }

  predicate Uncollected(sh: Shared) {
    && (sh.record.Some? ==> !sh.record.value.cleanup.Collected?)
    && (sh.phase.Holding? ==> !sh.phase.data.cleanup.Collected?)
  }

  /** Only a block that saw both registrations absent marks an execution collected. */
  lemma StaysUncollected(s: State, e: Event, s': State)
    requires Uncollected(s.sh) && Step(s, e, s')
    requires !(e.Act? && e.eff.Settle? && e.eff.absent)
    ensures Uncollected(s'.sh)
  {
    if e.Act? {
      ActStaysUncollected(s.sh, e.p, s.procs[e.p], e.eff, s'.sh, s'.procs[e.p]);
    }
  }

  lemma ActStaysUncollected(sh: Shared, p: nat, w: Proc, eff: Effect, sh': Shared, w': Proc)
    requires Uncollected(sh) && Does(sh, p, eff, sh') && Moves(sh, w, eff, w')
    requires !(eff.Settle? && eff.absent)
    ensures Uncollected(sh')
  {}

  lemma PresentSettlement(sh: Shared, p: nat, w: Proc, eff: Effect, sh': Shared, w': Proc)
    requires Does(sh, p, eff, sh') && Moves(sh, w, eff, w') && eff.Settle? && !eff.absent
    requires w.Reconciler? && !w.cancel
    ensures sh.record.Some? && sh'.record.Some? && !sh'.phase.Holding?
    ensures Uncollected(sh') <==> !(sh.record.value.cleanup.Collected? && !Terminal(sh.record.value.status))
  {}

  // ---- Over every run ----

  /** A prune between its settling block and its removal, having seen a registration present. */
  predicate PresentPrune(w: Proc) {
    && w.Reconciler? && w.retention.Some?
    && (w.rpc == Selecting(false) || (w.rpc.Removing? && !w.rpc.absent))
  }

  predicate PrunesDoNotCancel(s: State) {
    forall p | p in s.procs :: s.procs[p].Reconciler? && s.procs[p].retention.Some? ==> !s.procs[p].cancel
  }

  lemma {:induction false} RunsPruneWithoutCancel(t: Trace, i: nat)
    requires IsRun(t) && i < |t.states|
    ensures PrunesDoNotCancel(t.states[i])
  {
    if i > 0 {
      RunsPruneWithoutCancel(t, i - 1);
      StepPrunesWithoutCancel(t.states[i - 1], t.events[i - 1], t.states[i]);
    }
  }

  lemma StepPrunesWithoutCancel(s: State, e: Event, s': State)
    requires PrunesDoNotCancel(s) && Step(s, e, s')
    ensures PrunesDoNotCancel(s')
  {
    forall p | p in s'.procs && s'.procs[p].Reconciler? && s'.procs[p].retention.Some? ensures !s'.procs[p].cancel {
      if p in s.procs && s.procs[p].Reconciler? {
        assert s.procs[p].retention.Some? ==> !s.procs[p].cancel;
      }
    }
  }

  /** Why a prune that saw a registration present may find its execution collected. */
  predicate Explained(t: Trace, k: nat, i: nat, p: nat)
    requires i < |t.states| && |t.states| == |t.events| + 1
  {
    && k < i && SawPresent(t, k, p)
    && (FoundCollected(t, k) || OtherSawAbsent(t, k, i, p)
        || (Uncollected(t.states[i].sh) && p in t.states[i].procs && !Decided(t.states[i].procs[p])))
  }

  lemma ExplanationStarts(t: Trace, i: nat, p: nat)
    requires IsRun(t) && i < |t.events| && PrunesDoNotCancel(t.states[i])
    requires p in t.states[i + 1].procs && PresentPrune(t.states[i + 1].procs[p])
    requires p !in t.states[i].procs || !PresentPrune(t.states[i].procs[p])
    ensures Explained(t, i, i + 1, p)
  {
    var s, e, s' := t.states[i], t.events[i], t.states[i + 1];
    assert Step(s, e, s');
    assert e.Act? && e.p == p;
    PresentSettlement(s.sh, p, s.procs[p], e.eff, s'.sh, s'.procs[p]);
  }

  lemma ExplanationHolds(t: Trace, k: nat, i: nat, p: nat)
    requires IsRun(t) && i < |t.events| && Explained(t, k, i, p)
    requires p in t.states[i].procs && PresentPrune(t.states[i].procs[p])
    requires p in t.states[i + 1].procs && PresentPrune(t.states[i + 1].procs[p])
    ensures Explained(t, k, i + 1, p)
  {
    var s, e, s' := t.states[i], t.events[i], t.states[i + 1];
    assert Step(s, e, s');
    if !FoundCollected(t, k) && !OtherSawAbsent(t, k, i, p) {
      if Settles(t, i, true) {
        assert e.p != p;
        assert OtherSawAbsent(t, k, i + 1, p);
      } else {
        StaysUncollected(s, e, s');
      }
    }
  }

  lemma {:induction false} PresenceIsExplained(t: Trace, i: nat, p: nat) returns (k: nat)
    requires IsRun(t) && i < |t.states| && p in t.states[i].procs && PresentPrune(t.states[i].procs[p])
    ensures Explained(t, k, i, p)
  {
    if p in t.states[i - 1].procs && PresentPrune(t.states[i - 1].procs[p]) {
      k := PresenceIsExplained(t, i - 1, p);
      ExplanationHolds(t, k, i - 1, p);
    } else {
      RunsPruneWithoutCancel(t, i - 1);
      ExplanationStarts(t, i - 1, p);
      k := i - 1;
    }
  }

  /**
   * In every run: when a prune that saw a registration present decides to remove, either another
   * process saw both absent after prune's own block, or that block found the record already
   * collected but not terminal, which is the one case in which it leaves the mark.
   */
  lemma RemovalOfPresent(t: Trace, i: nat, p: nat) returns (k: nat)
    requires IsRun(t) && i < |t.states| && p in t.states[i].procs
    requires PresentPrune(t.states[i].procs[p]) && Decided(t.states[i].procs[p])
    ensures k < i && SawPresent(t, k, p) && (FoundCollected(t, k) || OtherSawAbsent(t, k, i, p))
  {
    k := PresenceIsExplained(t, i, p);
  }

  // ---- Over every continuation of prune's own block ----

  /** The run ends as prune p settles registrations it saw present. */
  predicate JustSawPresent(t: Trace, p: nat) {
    && IsRun(t) && t.events != [] && t.events[|t.events| - 1] == Act(p, Settle(false, false))
    && p in End(t).procs && End(t).procs[p].Reconciler? && End(t).procs[p].retention.Some?
  }

  lemma BlockOfPresent(t: Trace, p: nat)
    requires JustSawPresent(t, p)
    ensures var n, s := |t.events| - 1, End(t);
      && s.sh.record.Some? && Free(s.sh) && !s.sh.phase.Uncreated?
      && s.procs[p] == Reconciling(s.procs[p].retention, Selecting(false))
      && (Uncollected(s.sh) <==> !FoundCollected(t, n))
      && (FoundCollected(t, n) ==> FoundCollected(t, n + 1))
  {
    var n := |t.events| - 1;
    var s, e, s' := t.states[n], t.events[n], t.states[n + 1];
    assert Step(s, e, s');
    RunKeepsInv(t, n);
    RunsPruneWithoutCancel(t, n);
    PresentSettlement(s.sh, p, s.procs[p], e.eff, s'.sh, s'.procs[p]);
  }

  predicate DecidesToRemove(s: State, p: nat) {
    p in s.procs && Decided(s.procs[p])
  }

  /** From some step on, nobody sees both registrations absent. */
  predicate Unhelped(u: Trace, from: nat) {
    forall m | from <= m < |u.events| :: !Settles(u, m, true)
  }

  ghost predicate RemovesUnhelped(u: Trace, t: Trace, p: nat) {
    Continues(u, t) && Unhelped(u, |t.events|) && DecidesToRemove(End(u), p)
  }

  predicate Waits(s: State, p: nat) {
    Uncollected(s.sh) && p in s.procs && !Decided(s.procs[p])
  }

  lemma StepWaits(s: State, e: Event, s': State, p: nat)
    requires Waits(s, p) && Step(s, e, s') && !(e.Act? && e.eff.Settle? && e.eff.absent)
    ensures Waits(s', p)
  {
    StaysUncollected(s, e, s');
  }

  lemma {:induction false} WaitsUnhelped(u: Trace, i: nat, j: nat, p: nat)
    requires IsRun(u) && i <= j < |u.states| && Waits(u.states[i], p) && Unhelped(u, i)
    ensures Waits(u.states[j], p)
  {
    if i < j {
      WaitsUnhelped(u, i, j - 1, p);
      assert !Settles(u, j - 1, true);
      StepWaits(u.states[j - 1], u.events[j - 1], u.states[j], p);
    }
  }

  lemma ThenUnhelped(t: Trace, u: Trace, e: Event, s: State)
    requires Continues(u, t) && Unhelped(u, |t.events|) && Step(End(u), e, s) && Honest(End(u), e)
    requires !(e.Act? && e.eff.Settle?)
    ensures Continues(Then(u, e, s), t) && Unhelped(Then(u, e, s), |t.events|) && End(Then(u, e, s)) == s
  {
    ThenContinues(u, e, s);
    var u' := Then(u, e, s);
    forall m | |t.events| <= m < |u'.events| ensures !Settles(u', m, true) {
      assert m < |u.events| ==> !Settles(u, m, true);
    }
  }

  function Bereft(s: State): State {
    if LiveClaim(s) then At(s, s.sh.claimant.value, Dead) else s
  }

  /** The claimant can die at any time. */
  lemma ClaimantDies(t: Trace, u: Trace) returns (u': Trace)
    requires Continues(u, t) && Unhelped(u, |t.events|)
    ensures Continues(u', t) && Unhelped(u', |t.events|) && End(u') == Bereft(End(u)) && !LiveClaim(End(u'))
  {
    u' := u;
    if LiveClaim(End(u)) {
      var c := End(u).sh.claimant.value;
      ThenUnhelped(t, u, Kill(c), At(End(u), c, Dead));
      u' := Then(u, Kill(c), At(End(u), c, Dead));
    }
  }

  /** A stop hook can make the record terminal, and leaves the cleanup field as it is. */
  lemma HookRecovers(t: Trace, u: Trace, q: nat) returns (u': Trace)
    requires Continues(u, t) && Unhelped(u, |t.events|) && !LiveClaim(End(u)) && q !in End(u).procs
    requires Free(End(u).sh) && End(u).sh.record.Some? && !Terminal(End(u).sh.record.value.status)
    ensures Continues(u', t) && Unhelped(u', |t.events|)
    ensures End(u').procs == End(u).procs[q := Finisher(StoppingTimer)]
    ensures var d, sh' := End(u).sh.record.value, End(u').sh;
      sh'.record.Some? && Terminal(sh'.record.value.status) && sh'.record.value.cleanup == d.cleanup
      && sh'.record.value.finishedAt == Some(sh'.now)
  {
    var s := End(u);
    var s1 := At(s, q, Finisher(HookStarted));
    ThenUnhelped(t, u, Spawn(q, Finisher(HookStarted)), s1);
    var u1 := Then(u, Spawn(q, Finisher(HookStarted)), s1);
    var sh := s.sh.(record := Some(Apply(s.sh.record.value, Recover(Visible(s.sh)), s.sh.now)));
    var s2 := State(sh, s1.procs[q := Finisher(StoppingTimer)]);
    ThenUnhelped(t, u1, Act(q, InBlock(Recover(Visible(s.sh)))), s2);
    u' := Then(u1, Act(q, InBlock(Recover(Visible(s.sh)))), s2);
    assert s1.procs[q := Finisher(StoppingTimer)] == s.procs[q := Finisher(StoppingTimer)];
  }

  /** Once the record is terminal and collected, the prune waits until it is old enough. */
  lemma PruneDecides(t: Trace, u: Trace, p: nat, retention: nat) returns (u': Trace)
    requires Continues(u, t) && Unhelped(u, |t.events|)
    requires p in End(u).procs && End(u).procs[p] == Reconciling(Some(retention), Selecting(false))
    requires var sh := End(u).sh;
      sh.record.Some? && Terminal(sh.record.value.status) && sh.record.value.cleanup.Collected?
      && sh.record.value.finishedAt == Some(sh.now)
    ensures RemovesUnhelped(u', t, p)
  {
    var s := End(u);
    var s1 := s.(sh := s.sh.(now := s.sh.now + retention));
    ThenUnhelped(t, u, Tick(s1.sh.now), s1);
    var u1 := Then(u, Tick(s1.sh.now), s1);
    var w := Reconciling(Some(retention), Removing(s1.sh.record.value, false, s1.sh.collector));
    ThenUnhelped(t, u1, Act(p, Quiet), At(s1, p, w));
    u' := Then(u1, Act(p, Quiet), At(s1, p, w));
  }

  lemma RemovesWithTheHook(t: Trace, p: nat) returns (u: Trace)
    requires IsHonestRun(t) && JustSawPresent(t, p) && FoundCollected(t, |t.states| - 1)
    ensures RemovesUnhelped(u, t, p)
  {
    BlockOfPresent(t, p);
    u := ClaimantDies(t, t);
    var q := FreshPid(End(u).procs.Keys);
    u := HookRecovers(t, u, q);
    u := PruneDecides(t, u, p, End(t).procs[p].retention.value);
  }

  /**
   * After its own block saw a registration present, prune can still come to remove the execution
   * with nobody seeing both absent afterwards, if and only if that block found the record
   * collected but not terminal.
   */
  lemma PresentRemovedUnhelped(t: Trace, p: nat)
    requires IsHonestRun(t) && JustSawPresent(t, p)
    ensures (exists u :: RemovesUnhelped(u, t, p)) <==> FoundCollected(t, |t.events| - 1)
  {
    BlockOfPresent(t, p);
    if FoundCollected(t, |t.events| - 1) {
      var u := RemovesWithTheHook(t, p);
    } else {
      forall u | Continues(u, t) && Unhelped(u, |t.events|) ensures !DecidesToRemove(End(u), p) {
        assert u.states[|t.states| - 1] == End(t);
        WaitsUnhelped(u, |t.states| - 1, |u.states| - 1, p);
      }
    }
  }

  lemma LeadsToDecision(t: Trace, s: State, p: nat, retention: nat)
    requires Leads(t, s) && p in s.procs && s.procs[p] == Reconciling(Some(retention), Selecting(false))
    requires s.sh.record.Some? && Timed(s.sh.record.value)
    requires Terminal(s.sh.record.value.status) && s.sh.record.value.cleanup.Collected?
    ensures exists s' :: Leads(t, s') && DecidesToRemove(s', p)
  {
    var ripe := s.sh.record.value.finishedAt.value + retention;
    var now := if ripe < s.sh.now then s.sh.now else ripe;
    var s1 := s.(sh := s.sh.(now := now));
    LeadsByTick(t, s, now);
    var w := Reconciling(Some(retention), Removing(s1.sh.record.value, false, s1.sh.collector));
    assert At(s1, p, s1.procs[p]) == s1;
    LeadsQuietly(t, s1, p, s1.procs[p], w);
    assert DecidesToRemove(At(s1, p, w), p);
  }

  /** A reconcile that sees both absent collects the execution, and the prune decides. */
  lemma LeadsToHelp(t: Trace, s: State, p: nat, retention: nat)
    requires Leads(t, s) && p in s.procs && s.procs[p] == Reconciling(Some(retention), Selecting(false))
    requires Free(s.sh) && s.sh.record.Some? && Timed(s.sh.record.value) && !LiveClaim(s)
    ensures exists s' :: Leads(t, s') && DecidesToRemove(s', p)
  {
    var q := FreshPid(s.procs.Keys + if s.sh.claimant.Some? then {s.sh.claimant.value} else {});
    LeadsByReconcile(t, s, q, None, true);
    LeadsToDecision(t, At(s.(sh := Settlement(s.sh, q, true)), q, AfterSettling(None, true)), p, retention);
  }

  /** With another process that sees both absent it can always come to that. */
  lemma PresentRemovedWithHelp(t: Trace, p: nat)
    requires IsHonestRun(t) && JustSawPresent(t, p)
    ensures exists s :: Leads(t, s) && DecidesToRemove(s, p)
  {
    BlockOfPresent(t, p);
    RunKeepsSound(t, |t.states| - 1);
    var u := ClaimantDies(t, t);
    assert ContinuesTo(u, t, End(u));
    LeadsToHelp(t, End(u), p, End(t).procs[p].retention.value);
  }
}
