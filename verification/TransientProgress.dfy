/** No process of the transient protocol gets stuck, and every process ends. */
module TransientProgress {
  import opened Common
  import opened TransientRecord
  import opened TransientProtocol
  import opened TransientContinuations

  predicate Ended(w: Proc) {
    || w.Dead? || (w.Wrapper? && w.wpc.WrapperGone?) || (w.Finisher? && w.fpc.HookGone?)
    || (w.Reconciler? && w.rpc.ReconcilerGone?)
  }

  /** How many steps of its own a process can still make. */
  function StepsLeft(w: Proc): nat {
    match w
    case Wrapper(pc, _) => WrapperStepsLeft(pc)
    case Finisher(pc) =>
      (match pc
       case HookStarted => 3 case StoppingTimer => 2 case HookGone => 0
       case _ => 1)
    case Reconciler(_, _, pc) => ReconcilerStepsLeft(pc)
    case Dead => 0
  }

  function WrapperStepsLeft(pc: WrapperPc): nat {
    match pc
    case Delivered => 13 case Waiting => 12 case Ready => 11 case Loading => 10 case Loaded => 9
    case Preparing => 8 case Launching => 7 case Working => 6 case Finalised(_) => 5 case Failing => 4
    case Closing => 3 case BootingOut => 2 case CleanupFailing => 1 case WrapperGone => 0
  }

  function ReconcilerStepsLeft(pc: ReconcilerPc): nat {
    match pc
    case Discovering => 11 case Reading => 10 case AskingCancel => 9 case ProbingClaim(_) => 8
    case Recovering => 7 case Stopping(_) => 6 case Probing => 5 case ProbingService(_) => 4
    case Settling(_) => 3 case FailingCleanup => 1 case Selecting(_) => 2 case Removing(_, _, _) => 1
    case ReconcilerGone => 0
  }

  /** How many of these events are steps of the process. */
  function OwnSteps(events: seq<Event>, p: nat, i: nat, j: nat): nat
    requires i <= j <= |events|
  {
    if i == j then 0 else OwnSteps(events, p, i, j - 1) + if IsStepOf(events[j - 1], p) then 1 else 0
  }

  predicate IsStepOf(e: Event, p: nat) {
    e.Act? && e.p == p
  }

  /** The process is still known, and nearer to its end if the step was its own. */
  predicate ComesNearer(s: State, e: Event, s': State, p: nat) {
    p in s.procs ==>
      && p in s'.procs
      && StepsLeft(s'.procs[p]) + (if IsStepOf(e, p) then 1 else 0) <= StepsLeft(s.procs[p])
  }

  lemma MoveComesNearer(sh: Shared, w: Proc, eff: Effect, w': Proc)
    requires Moves(sh, w, eff, w')
    ensures StepsLeft(w') < StepsLeft(w)
  {}

  lemma StepComesNearer(s: State, e: Event, s': State, p: nat)
    requires Step(s, e, s')
    ensures ComesNearer(s, e, s', p)
  {
    if IsStepOf(e, p) {
      MoveComesNearer(s.sh, s.procs[p], e.eff, s'.procs[p]);
    }
  }

  lemma {:induction false} NearerAlong(states: seq<State>, events: seq<Event>, p: nat, i: nat, j: nat)
    requires i <= j < |states| == |events| + 1 && p in states[i].procs
    requires forall k | i <= k < j :: ComesNearer(states[k], events[k], states[k + 1], p)
    ensures p in states[j].procs
    ensures OwnSteps(events, p, i, j) + StepsLeft(states[j].procs[p]) <= StepsLeft(states[i].procs[p])
  {
    if i < j {
      NearerAlong(states, events, p, i, j - 1);
      assert ComesNearer(states[j - 1], events[j - 1], states[j - 1 + 1], p);
    }
  }

  lemma RunComesNearer(t: Trace, k: nat, p: nat)
    requires IsRun(t) && k < |t.events|
    ensures ComesNearer(t.states[k], t.events[k], t.states[k + 1], p)
  {
    StepComesNearer(t.states[k], t.events[k], t.states[k + 1], p);
  }

  lemma OnlyTheEndedHaveNoSteps(w: Proc)
    ensures StepsLeft(w) <= 13 && (StepsLeft(w) == 0 <==> Ended(w))
  {}

  /** Whatever others do, a process is over after thirteen steps of its own. */
  lemma ProcessesEnd(t: Trace, p: nat, i: nat, j: nat)
    requires IsRun(t) && i <= j < |t.states| && p in t.states[i].procs
    ensures p in t.states[j].procs && OwnSteps(t.events, p, i, j) <= 13
    ensures OwnSteps(t.events, p, i, j) == 13 ==> Ended(t.states[j].procs[p])
  {
    forall k | i <= k < j ensures ComesNearer(t.states[k], t.events[k], t.states[k + 1], p) {
      RunComesNearer(t, k, p);
    }
    NearerAlong(t.states, t.events, p, i, j);
    OnlyTheEndedHaveNoSteps(t.states[i].procs[p]);
    OnlyTheEndedHaveNoSteps(t.states[j].procs[p]);
  }

  /** Only a prune selects and removes. */
  predicate SelectorsPrune(s: State) {
    forall p | p in s.procs && s.procs[p].Reconciler? && s.procs[p].rpc.Selecting? :: s.procs[p].retention.Some?
  }

  lemma StepKeepsSelectors(s: State, e: Event, s': State)
    requires SelectorsPrune(s) && Step(s, e, s')
    ensures SelectorsPrune(s')
  {}

  lemma {:induction false} RunKeepsSelectors(t: Trace, i: nat)
    requires IsRun(t) && i < |t.states|
    ensures SelectorsPrune(t.states[i])
  {
    if i > 0 {
      RunKeepsSelectors(t, i - 1);
      StepKeepsSelectors(t.states[i - 1], t.events[i - 1], t.states[i]);
    }
  }

  /** Has a next step: one effect, its shared state and its next place. */
  ghost predicate CanMove(sh: Shared, p: nat, w: Proc) {
    exists eff, sh', w' :: Does(sh, p, eff, sh') && Moves(sh, w, eff, w')
  }

  lemma Can(sh: Shared, p: nat, w: Proc, eff: Effect, sh': Shared, w': Proc)
    requires Does(sh, p, eff, sh') && Moves(sh, w, eff, w')
    ensures CanMove(sh, p, w)
  {}

  lemma CanRunBlock(sh: Shared, p: nat, w: Proc, b: Block, w': Proc)
    requires Free(sh) && sh.record.Some? && Moves(sh, w, InBlock(b), w')
    ensures CanMove(sh, p, w)
  {
    Can(sh, p, w, InBlock(b), sh.(record := Some(Apply(sh.record.value, b, sh.now))), w');
  }

  lemma WrapperCanMove(sh: Shared, p: nat, w: Proc)
    requires w.Wrapper? && !Ended(w) && Free(sh) && (w.wpc.Waiting? ==> DuePassed(sh) || w.interrupted)
    requires w.wpc.Working? ==> sh.runs != []
    ensures CanMove(sh, p, w)
  {
    var at := (pc: WrapperPc) => Wrapper(pc, w.interrupted);
    match w.wpc
    case Delivered =>
      if Refused(sh) {
        Can(sh, p, w, Quiet, sh, at(WrapperGone));
      } else {
        Can(sh, p, w, TakeClaim, Claimed(sh, p), at(Waiting));
      }
    case Waiting => Can(sh, p, w, Quiet, sh, at(Ready));
    case Ready =>
      if sh.record.None? {
        Can(sh, p, w, Quiet, sh, at(WrapperGone));
      } else {
        CanRunBlock(sh, p, w, Start(w.interrupted),
                    at(if Starts(sh.record.value, w.interrupted) then Loading else Closing));
      }
    case Finalised(run) =>
      if sh.record.None? {
        Can(sh, p, w, Quiet, sh, at(WrapperGone));
      } else {
        CanRunBlock(sh, p, w, Report(run), at(Closing));
      }
    case Failing =>
      if sh.record.None? {
        Can(sh, p, w, Quiet, sh, at(WrapperGone));
      } else {
        CanRunBlock(sh, p, w, Break, at(Closing));
      }
    case Closing =>
      if !sh.launchd {
        Can(sh, p, w, Quiet, sh, at(WrapperGone));
      } else if sh.record.None? {
        Can(sh, p, w, Quiet, sh, at(CleanupFailing));
      } else {
        CanRunBlock(sh, p, w, Delegate, at(BootingOut));
      }
    case BootingOut => Can(sh, p, w, Quiet, sh, at(WrapperGone));
    case CleanupFailing =>
      if sh.record.None? {
        Can(sh, p, w, Quiet, sh, at(WrapperGone));
      } else {
        CanRunBlock(sh, p, w, FailCleanup, at(WrapperGone));
      }
    case _ => Can(sh, p, w, Quiet, sh, at(Failing));
  }

  lemma HookCanWrite(sh: Shared, p: nat, w: Proc, b: Block)
    requires Free(sh)
    requires (w == Finisher(HookFailing) && b == FailCleanup) || (w == Finisher(HookDelegating) && b == Delegate)
    ensures CanMove(sh, p, w)
  {
    if sh.record.None? {
      Can(sh, p, w, Quiet, sh, Finisher(HookGone));
    } else {
      CanRunBlock(sh, p, w, b, Finisher(HookGone));
    }
  }

  lemma FinisherCanMove(sh: Shared, p: nat, w: Proc)
    requires w.Finisher? && !Ended(w) && Free(sh)
    ensures CanMove(sh, p, w)
  {
    match w.fpc
    case HookStarted =>
      if sh.record.None? {
        Can(sh, p, w, Quiet, sh, Finisher(HookGone));
      } else {
        CanRunBlock(sh, p, w, Recover(Visible(sh)), Finisher(StoppingTimer));
      }
    case StoppingTimer => Can(sh, p, w, Quiet, sh, Finisher(HookDelegating));
    case HookFailing => HookCanWrite(sh, p, w, FailCleanup);
    case HookDelegating => HookCanWrite(sh, p, w, Delegate);
    case HookGone =>
  }

  /** Where a reconcile goes when the record has been removed. */
  function WithoutRecord(pc: ReconcilerPc): ReconcilerPc {
    if pc.Recovering? || pc.Settling? then FailingCleanup else ReconcilerGone
  }

  lemma ReconcilerCanBlock(sh: Shared, p: nat, w: Proc)
    requires w.Reconciler? && Free(sh)
    requires w.rpc.AskingCancel? || w.rpc.Recovering? || w.rpc.Settling? || w.rpc.FailingCleanup?
    ensures CanMove(sh, p, w)
  {
    if sh.record.None? {
      Can(sh, p, w, Quiet, sh, w.(rpc := WithoutRecord(w.rpc)));
    } else {
      var d := sh.record.value;
      match w.rpc
      case AskingCancel => CanRunBlock(sh, p, w, AskCancel, w.(rpc := ProbingClaim(Apply(d, AskCancel, sh.now))));
      case Recovering =>
        CanRunBlock(sh, p, w, Recover(Visible(sh)), w.(rpc := Stopping(Apply(d, Recover(Visible(sh)), sh.now))));
      case FailingCleanup => CanRunBlock(sh, p, w, FailCleanup, w.(rpc := ReconcilerGone));
      case Settling(absent) =>
        var sh' := sh.(record := Some(Apply(d, Collect(Visible(sh), absent, w.cancel), sh.now)),
                       collector := if absent then Some(p) else sh.collector);
        Can(sh, p, w, Settle(absent, w.cancel), sh',
            w.(rpc := if w.retention.Some? then Selecting(absent) else ReconcilerGone));
    }
  }

  lemma ReconcilerCanMove(sh: Shared, p: nat, w: Proc)
    requires w.Reconciler? && !Ended(w) && Free(sh) && (w.rpc.Selecting? ==> w.retention.Some?)
    ensures CanMove(sh, p, w)
  {
    match w.rpc
    case Discovering =>
      var found := sh.record.Some? && Terminal(sh.record.value.status);
      Can(sh, p, w, Quiet, sh, w.(rpc := if found then Reading else ReconcilerGone));
    case Reading =>
      Can(sh, p, w, Quiet, sh, w.(rpc := if sh.record.None? then ReconcilerGone
                                         else if w.cancel then AskingCancel else ProbingClaim(sh.record.value)));
    case ProbingClaim(data) => Can(sh, p, w, Quiet, sh, w.(rpc := Stopping(data)));
    case Stopping(_) => Can(sh, p, w, Quiet, sh, w.(rpc := Probing));
    case Probing => Can(sh, p, w, Quiet, sh, w.(rpc := ProbingService(true)));
    case ProbingService(_) => Can(sh, p, w, Quiet, sh, w.(rpc := Settling(false)));
    case Selecting(absent) =>
      var found := sh.record.Some? && Candidate(sh.record.value, w.retention.value, sh.now);
      Can(sh, p, w, Quiet, sh,
          w.(rpc := if found then Removing(sh.record.value, absent, sh.collector) else ReconcilerGone));
    case Removing(_, _, _) =>
      Can(sh, p, w, RemoveFiles, sh.(record := None, snapshot := false, stored := false), w.(rpc := ReconcilerGone));
    case _ => ReconcilerCanBlock(sh, p, w);
  }

  /**
   * In every reachable state a process that is not over has a next step, unless submission holds
   * the lock or it is a wrapper that waits for its deadline.
   */
  lemma NobodyIsStuck(t: Trace, i: nat, p: nat)
    requires IsRun(t) && i < |t.states| && p in t.states[i].procs && !Ended(t.states[i].procs[p])
    requires Free(t.states[i].sh)
    requires var w := t.states[i].procs[p];
      w.Wrapper? && w.wpc.Waiting? ==> DuePassed(t.states[i].sh) || w.interrupted
    ensures exists eff, s' :: Step(t.states[i], Act(p, eff), s')
  {
    var s, w := t.states[i], t.states[i].procs[p];
    RunKeepsInv(t, i);
    RunKeepsSelectors(t, i);
    assert ProcInv(s.sh, p, w);
    match w {
      case Wrapper(_, _) => WrapperCanMove(s.sh, p, w);
      case Finisher(_) => FinisherCanMove(s.sh, p, w);
      case Reconciler(_, _, _) => ReconcilerCanMove(s.sh, p, w);
    }
    var eff, sh', w' :| Does(s.sh, p, eff, sh') && Moves(s.sh, w, eff, w');
    ActStep(s, p, eff, sh', w');
    assert Step(t.states[i], Act(p, eff), At(s.(sh := sh'), p, w'));
  }
}
