/**
 * The life of one transient execution as a step system.
 *
 * Any number of delivered wrappers, stop hooks, reconciles, cancels and prunes race on one
 * record.  A locked block is one step; everything between two blocks is a separate step, so
 * any process can be overtaken, signalled or killed there.  Submission's block is the
 * exception: it talks to the scheduler while it holds the lock, so it is a step that takes
 * the lock and a step that writes.  Reads outside the lock and the removal of the directory
 * by prune ignore the lock, as they do in the code.
 */
module TransientProtocol {
  import opened Common
  import opened TransientRecord

  datatype Phase =
    | Uncreated
    | Created
    | Holding(data: Record, ok: bool)
    | Committed
    | SubmitterDead

  datatype WrapperPc =
    | Delivered            // before the claiming block
    | Waiting              // claimed, waiting for the deadline
    | Ready                // before the block that starts or cancels
    | Loading              // record says running, the snapshot is not read yet
    | Loaded               // the snapshot is read, no run is recorded yet
    | Failing              // an error was raised that has to be recorded
    | Preparing            // the run is recorded, cancellation is not checked yet
    | Launching            // found no cancellation, about to start the workload
    | Working              // the workload has been entered
    | Finalised(run: Run)  // the run history has the outcome, the record does not
    | Closing              // launchd: before cleanup is delegated
    | BootingOut           // launchd: unloading its own job
    | CleanupFailing
    | WrapperGone

  datatype FinisherPc = HookStarted | StoppingTimer | HookFailing | HookDelegating | HookGone

  datatype ReconcilerPc =
    | Discovering                       // prune only: the unlocked scan
    | Reading
    | AskingCancel
    | ProbingClaim(data: Record)
    | Recovering
    | Stopping(data: Record)
    | Probing                           // before asking for the timer
    | ProbingService(timer: bool)       // the timer was present or not, before asking for the service
    | Settling(absent: bool)
    | FailingCleanup
    | Selecting(absent: bool)           // prune only: reading the candidates
    | Removing(seen: Record, absent: bool, collectedBy: Option<nat>)
    | ReconcilerGone

  datatype Proc =
    | Wrapper(wpc: WrapperPc, interrupted: bool)
    | Finisher(fpc: FinisherPc)
    | Reconciler(cancel: bool, retention: Option<nat>, rpc: ReconcilerPc)
    | Dead

  /**
   * snapshot says whether the definition that submission wrote is still there.  runs is the run
   * history, which recoveries see as long as it is stored: prune removes it with the snapshot, but
   * a wrapper makes the directory again when it records its run or the outcome.  announced holds
   * the outcomes for which the task has notification references.  claimant, entered and collector
   * only record what happened: who claimed, how often the workload was entered, whose block last
   * wrote "collected".
   */
  datatype Shared = Shared(
    record: Option<Record>,
    phase: Phase,
    snapshot: bool,
    runs: seq<Run>,
    stored: bool,
    now: int,
    due: Option<int>,
    launchd: bool,
    announced: set<Status>,
    claimant: Option<nat>,
    entered: nat,
    collector: Option<nat>)

  datatype State = State(sh: Shared, procs: map<nat, Proc>)

  // ---- What one step of a process does to the shared state ----

  datatype Effect =
    | Quiet                       // outside the lock, or a block that wrote back what it read
    | InBlock(block: Block)
    | TakeClaim
    | RecordRun
    | EnterWorkload
    | FinaliseRun(run: Run)
    | Settle(absent: bool, cancel: bool)
    | RemoveFiles

  predicate Free(sh: Shared) {
    !sh.phase.Holding?
  }

  /** The outcome the history directory shows to a recovery. */
  function Visible(sh: Shared): Option<Run> {
    if sh.stored then Latest(sh.runs) else None
  }

  predicate DuePassed(sh: Shared) {
    sh.due.None? || sh.due.value <= sh.now
  }

  predicate Does(sh: Shared, p: nat, eff: Effect, sh': Shared) {
    match eff
    case Quiet => sh' == sh
    case InBlock(b) =>
      && Free(sh) && sh.record.Some?
      && sh' == sh.(record := Some(Apply(sh.record.value, b, sh.now)))
    case TakeClaim =>
      && Free(sh) && sh.record.Some? && Claimable(sh.record.value)
      && sh' == sh.(record := Some(Apply(sh.record.value, Claim, sh.now)), claimant := Some(p))
    case RecordRun =>
      sh' == sh.(runs := sh.runs + [Run(Running, None)], stored := true)
    case EnterWorkload =>
      sh' == sh.(entered := sh.entered + 1)
    case FinaliseRun(run) =>
      |sh.runs| > 0 && sh' == sh.(runs := sh.runs[|sh.runs| - 1 := run], stored := true)
    case Settle(absent, cancel) =>
      && Free(sh) && sh.record.Some?
      && sh' == sh.(record := Some(Apply(sh.record.value, Collect(Visible(sh), absent, cancel), sh.now)),
                    collector := if absent then Some(p) else sh.collector)
    case RemoveFiles =>
      sh' == sh.(record := None, snapshot := false, stored := false)
  }

  // ---- The programs: which effect a process has where, and where it goes next ----

  predicate EarlyOutcome(run: Run, interrupted: bool) {
    run.status.Skipped? || run.status.Errored? || (run.status.Cancelled? && interrupted)
  }

  predicate LateOutcome(run: Run, interrupted: bool) {
    || (run.status.Succeeded? && run.exitCode == Some(0))
    || (run.status.Failed? && run.exitCode != Some(0))
    || run.status.TimedOut?
    || (run.status.Cancelled? && interrupted)
  }

  predicate Refused(sh: Shared) {
    sh.record.None? || (Free(sh) && !Claimable(sh.record.value))
  }

  predicate WrapperMoves(sh: Shared, pc: WrapperPc, interrupted: bool, eff: Effect, pc': WrapperPc) {
    match pc
    case Delivered =>
      || (eff.Quiet? && Refused(sh) && pc'.WrapperGone?)
      || (eff.TakeClaim? && pc'.Waiting?)
    case Waiting =>
      eff.Quiet? && (interrupted || DuePassed(sh)) && pc'.Ready?
    case Ready =>
      || (eff.Quiet? && sh.record.None? && pc'.WrapperGone?)
      || (eff == InBlock(Start(interrupted)) && sh.record.Some?
          && pc' == if Starts(sh.record.value, interrupted) then Loading else Closing)
    case Loading =>
      eff.Quiet? && (pc'.Failing? || (sh.snapshot && pc'.Loaded?))
    case Loaded =>
      (eff.Quiet? && pc'.Failing?) || (eff.RecordRun? && pc'.Preparing?)
    case Failing =>
      || (eff.Quiet? && sh.record.None? && pc'.WrapperGone?)
      || (eff == InBlock(Break) && pc'.Closing?)
    case Preparing =>
      || (eff.Quiet? && !interrupted && pc'.Launching?)
      || (eff.Quiet? && pc'.Failing?)
      || (eff.FinaliseRun? && EarlyOutcome(eff.run, interrupted) && pc' == Finalised(eff.run))
    case Launching =>
      || (eff.EnterWorkload? && pc'.Working?)
      || (eff.Quiet? && pc'.Failing?)
      || (eff.FinaliseRun? && eff.run.status.Errored? && pc' == Finalised(eff.run))
    case Working =>
      || (eff.FinaliseRun? && LateOutcome(eff.run, interrupted) && pc' == Finalised(eff.run))
      || (eff.Quiet? && pc'.Failing?)
    case Finalised(run) =>
      || (eff.Quiet? && sh.record.None? && pc'.WrapperGone?)
      || (eff.Quiet? && run.status in sh.announced && pc'.Failing?)
      || (eff == InBlock(Report(run)) && pc'.Closing?)
    case Closing =>
      || (!sh.launchd && eff.Quiet? && pc'.WrapperGone?)
      || (sh.launchd && eff.Quiet? && sh.record.None? && pc'.CleanupFailing?)
      || (sh.launchd && eff == InBlock(Delegate) && pc'.BootingOut?)
    case BootingOut =>
      eff.Quiet? && (pc'.WrapperGone? || pc'.CleanupFailing?)
    case CleanupFailing =>
      ((eff.Quiet? && sh.record.None?) || eff == InBlock(FailCleanup)) && pc'.WrapperGone?
    case WrapperGone => false
  }

  predicate FinisherMoves(sh: Shared, pc: FinisherPc, eff: Effect, pc': FinisherPc) {
    match pc
    case HookStarted =>
      || (eff.Quiet? && sh.record.None? && pc'.HookGone?)
      || (eff == InBlock(Recover(Visible(sh))) && pc'.StoppingTimer?)
    case StoppingTimer => eff.Quiet? && (pc'.HookFailing? || pc'.HookDelegating?)
    case HookFailing =>
      ((eff.Quiet? && sh.record.None?) || eff == InBlock(FailCleanup)) && pc'.HookGone?
    case HookDelegating =>
      ((eff.Quiet? && sh.record.None?) || eff == InBlock(Delegate)) && pc'.HookGone?
    case HookGone => false
  }

  predicate Expired(d: Record, retention: nat, now: int) {
    d.finishedAt.Some? && d.finishedAt.value + retention <= now
  }

  predicate Candidate(d: Record, retention: nat, now: int) {
    Terminal(d.status) && d.cleanup.Collected? && Expired(d, retention, now)
  }

  predicate ReconcilerMoves(sh: Shared, cancel: bool, retention: Option<nat>,
                            pc: ReconcilerPc, eff: Effect, pc': ReconcilerPc)
  {
    match pc
    case Discovering =>
      && eff.Quiet?
      && pc' == if sh.record.Some? && Terminal(sh.record.value.status) then Reading else ReconcilerGone
    case Reading =>
      && eff.Quiet?
      && pc' == if sh.record.None? then ReconcilerGone
                else if cancel then AskingCancel else ProbingClaim(sh.record.value)
    case AskingCancel =>
      || (eff.Quiet? && sh.record.None? && pc'.ReconcilerGone?)
      || (eff == InBlock(AskCancel) && sh.record.Some?
          && pc' == ProbingClaim(Apply(sh.record.value, AskCancel, sh.now)))
    case ProbingClaim(data) =>
      && eff.Quiet?
      && (|| pc' == Stopping(data)
          || (data.claimed && !Terminal(data.status) && (pc'.Recovering? || pc'.FailingCleanup?)))
    case Recovering =>
      || (eff.Quiet? && sh.record.None? && pc'.FailingCleanup?)
      || (eff == InBlock(Recover(Visible(sh))) && sh.record.Some?
          && pc' == Stopping(Apply(sh.record.value, Recover(Visible(sh)), sh.now)))
    case Stopping(data) =>
      && eff.Quiet?
      && (pc'.Probing? || ((cancel || Terminal(data.status)) && pc'.FailingCleanup?))
    case Probing =>
      eff.Quiet? && (pc'.ProbingService? || pc'.FailingCleanup?)
    case ProbingService(timer) =>
      eff.Quiet? && (pc' == Settling(false) || (!timer && pc' == Settling(true)) || pc'.FailingCleanup?)
    case Settling(absent) =>
      || (eff.Quiet? && sh.record.None? && pc'.FailingCleanup?)
      || (eff == Settle(absent, cancel)
          && pc' == if retention.Some? then Selecting(absent) else ReconcilerGone)
    case FailingCleanup =>
      ((eff.Quiet? && sh.record.None?) || eff == InBlock(FailCleanup)) && pc'.ReconcilerGone?
    case Selecting(absent) =>
      && eff.Quiet? && retention.Some?
      && pc' == if sh.record.Some? && Candidate(sh.record.value, retention.value, sh.now)
                then Removing(sh.record.value, absent, sh.collector) else ReconcilerGone
    case Removing(_, _, _) =>
      eff.RemoveFiles? && pc'.ReconcilerGone?
    case ReconcilerGone => false
  }

  predicate Moves(sh: Shared, w: Proc, eff: Effect, w': Proc) {
    match w
    case Wrapper(pc, interrupted) =>
      w'.Wrapper? && w'.interrupted == interrupted && WrapperMoves(sh, pc, interrupted, eff, w'.wpc)
    case Finisher(pc) =>
      w'.Finisher? && FinisherMoves(sh, pc, eff, w'.fpc)
    case Reconciler(cancel, retention, pc) =>
      && w'.Reconciler? && w'.cancel == cancel && w'.retention == retention
      && ReconcilerMoves(sh, cancel, retention, pc, eff, w'.rpc)
    case Dead => false
  }

  // ---- The steps of the whole system ----

  datatype Event =
    | Create | Register(ok: bool) | Commit | SubmitterDies
    | Spawn(p: nat, proc: Proc) | Act(p: nat, eff: Effect) | Signal(p: nat) | Kill(p: nat)
    | Tick(now: int)

  /** What the scheduler and the operator may start, at any time and any number of times. */
  predicate Startable(proc: Proc) {
    || proc == Wrapper(Delivered, false)
    || proc == Finisher(HookStarted)
    || (proc.Reconciler? && proc.retention.None? && proc.rpc == Reading)
    || (proc.Reconciler? && proc.retention.Some? && !proc.cancel && proc.rpc == Discovering)
  }

  predicate SubmitterStep(sh: Shared, e: Event, sh': Shared) {
    match e
    case Create =>
      && sh.phase.Uncreated?
      && sh' == sh.(record := Some(FRESH), phase := Created, snapshot := true)
    case Register(ok) =>
      && sh.phase.Created? && sh.record.Some?
      && sh' == sh.(phase := Holding(sh.record.value, ok))
    case Commit =>
      && sh.phase.Holding?
      && sh' == sh.(record := Some(Apply(sh.phase.data, Submit(sh.phase.ok), sh.now)), phase := Committed)
    case SubmitterDies =>
      && (sh.phase.Created? || sh.phase.Holding?)
      && sh' == sh.(phase := SubmitterDead)
    case Tick(now) => sh.now <= now && sh' == sh.(now := now)
    case _ => false
  }

  predicate Step(s: State, e: Event, s': State) {
    match e
    case Spawn(p, proc) =>
      p !in s.procs && Startable(proc) && s' == s.(procs := s.procs[p := proc])
    case Act(p, eff) =>
      && p in s.procs && p in s'.procs
      && Does(s.sh, p, eff, s'.sh) && Moves(s.sh, s.procs[p], eff, s'.procs[p])
      && s'.procs == s.procs[p := s'.procs[p]]
    case Signal(p) =>
      && p in s.procs && s.procs[p].Wrapper?
      && s' == s.(procs := s.procs[p := s.procs[p].(interrupted := true)])
    case Kill(p) =>
      p in s.procs && s' == s.(procs := s.procs[p := Dead])
    case _ =>
      SubmitterStep(s.sh, e, s'.sh) && s'.procs == s.procs
  }

  /** Success has its own notification references; failure, timeout and error share theirs. */
  predicate References(announced: set<Status>) {
    && announced <= {Succeeded, Failed, TimedOut, Errored}
    && (Failed in announced <==> TimedOut in announced) && (Failed in announced <==> Errored in announced)
  }

  predicate Init(s: State) {
    && s.procs == map[]
    && s.sh.record == None && s.sh.phase == Uncreated && !s.sh.snapshot
    && s.sh.runs == [] && !s.sh.stored && References(s.sh.announced)
    && s.sh.claimant == None && s.sh.entered == 0 && s.sh.collector == None
  }

  datatype Trace = Trace(states: seq<State>, events: seq<Event>)

  predicate IsRun(t: Trace) {
    && |t.states| == |t.events| + 1
    && Init(t.states[0])
    && forall i | 0 <= i < |t.events| :: Step(t.states[i], t.events[i], t.states[i + 1])
  }

  // ---- Who owns the claim ----

  predicate Owner(pc: WrapperPc) {
    || pc.Waiting? || pc.Ready? || pc.Loading? || pc.Loaded? || pc.Failing?
    || pc.Preparing? || pc.Launching? || pc.Working? || pc.Finalised?
  }

  predicate HoldsClaim(w: Proc) {
    w.Wrapper? && Owner(w.wpc)
  }

  predicate LiveClaim(s: State) {
    s.sh.claimant.Some? && s.sh.claimant.value in s.procs && HoldsClaim(s.procs[s.sh.claimant.value])
  }

  predicate UsesVerdict(w: Proc) {
    || (w.Finisher? && w.fpc.HookStarted?)
    || (w.Reconciler? && (w.rpc.Recovering? || w.rpc == Settling(true)))
  }

  /**
   * The assumption about the scheduler: when a recovery block runs because the registration
   * was reported absent, inactive after a claim, or stopped, the claiming wrapper is dead.
   */
  predicate Honest(s: State, e: Event) {
    e.Act? && e.p in s.procs && UsesVerdict(s.procs[e.p]) ==> !LiveClaim(s)
  }

  predicate IsHonestRun(t: Trace) {
    IsRun(t) && forall i | 0 <= i < |t.events| :: Honest(t.states[i], t.events[i])
  }

  // ---- The invariant that needs no assumption ----

  /** How far the claim's owner is agrees with the run history and with the entry count. */
  predicate InStep(sh: Shared, pc: WrapperPc, interrupted: bool) {
    match pc
    case Waiting => sh.runs == [] && sh.entered == 0
    case Ready => sh.runs == [] && sh.entered == 0 && (interrupted || DuePassed(sh))
    case Loading => sh.runs == [] && sh.entered == 0 && DuePassed(sh)
    case Loaded => sh.runs == [] && sh.entered == 0 && DuePassed(sh)
    case Failing => sh.runs != [] && Terminal(sh.runs[0].status) ==> sh.runs[0].status in sh.announced
    case Preparing => sh.runs == [Run(Running, None)] && sh.entered == 0 && DuePassed(sh)
    case Launching => sh.runs == [Run(Running, None)] && sh.entered == 0 && DuePassed(sh)
    case Working => sh.runs == [Run(Running, None)]
    case Finalised(run) => sh.runs == [run] && Terminal(run.status)
    case _ => true
  }

  predicate MayHaveCollected(w: Proc) {
    || w.Dead?
    || (w.Reconciler? && (w.rpc == Selecting(true) || w.rpc.ReconcilerGone?
                          || (w.rpc.Removing? && w.rpc.absent)))
  }

  predicate JustifiedRemoval(sh: Shared, p: nat, w: Proc) {
    w.Reconciler? && w.rpc.Removing? ==>
      && w.retention.Some? && Candidate(w.rpc.seen, w.retention.value, sh.now)
      && w.rpc.collectedBy.Some? && (w.rpc.collectedBy == Some(p) ==> w.rpc.absent)
  }

  predicate ProcInv(sh: Shared, p: nat, w: Proc) {
    && (HoldsClaim(w) ==> sh.claimant == Some(p) && InStep(sh, w.wpc, w.interrupted))
    && JustifiedRemoval(sh, p, w)
    && (sh.collector == Some(p) ==> MayHaveCollected(w))
  }

  /** A claim, a collection and the scheduler's answer show in every copy of the record. */
  predicate CopyInv(sh: Shared, d: Record) {
    && (sh.claimant.Some? ==> d.claimed)
    && (sh.collector.None? ==> !d.cleanup.Collected?)
    && (!sh.phase.Committed? ==> d.acceptance.AwaitingAnswer?)
  }

  predicate SharedInv(sh: Shared) {
    && sh.entered <= 1 && |sh.runs| <= 1
    && (sh.record.Some? ==> CopyInv(sh, sh.record.value))
    && (sh.phase.Holding? ==> CopyInv(sh, sh.phase.data))
    && (sh.phase.Uncreated? ==> sh.record.None? && sh.claimant.None? && sh.collector.None?)
    && (sh.claimant.None? ==> sh.runs == [] && sh.entered == 0)
    && (sh.entered > 0 ==> DuePassed(sh))
    && (sh.phase.Holding? && sh.record.Some? ==> sh.record.value == sh.phase.data)
  }

  predicate Inv(s: State) {
    && SharedInv(s.sh)
    && (forall p | p in s.procs :: ProcInv(s.sh, p, s.procs[p]))
    && (s.sh.collector.Some? ==> s.sh.collector.value in s.procs)
    && (s.sh.claimant.Some? ==> s.sh.claimant.value in s.procs)
  }

  /** What the program counters guarantee about the effects that need a guarantee. */
  predicate Entitled(sh: Shared, p: nat, eff: Effect) {
    match eff
    case RecordRun => sh.claimant == Some(p) && sh.runs == [] && sh.entered == 0 && DuePassed(sh)
    case EnterWorkload => sh.claimant == Some(p) && sh.entered == 0 && DuePassed(sh)
    case FinaliseRun(run) => sh.claimant == Some(p) && |sh.runs| == 1 && Terminal(run.status)
    case InBlock(b) => !b.Submit? && !b.Claim? && !b.Collect?
    case _ => true
  }

  lemma ProgramIsEntitled(sh: Shared, p: nat, w: Proc, eff: Effect, w': Proc)
    requires ProcInv(sh, p, w) && Moves(sh, w, eff, w')
    ensures Entitled(sh, p, eff)
  {}

  /** A block of anyone but submission keeps what a copy of the record shows. */
  lemma BlockKeepsCopy(sh: Shared, b: Block)
    requires SharedInv(sh) && Free(sh) && sh.record.Some? && !b.Submit? && !b.Claim? && !b.Collect?
    ensures CopyInv(sh, Apply(sh.record.value, b, sh.now))
  {}

  lemma ClaimKeepsShared(sh: Shared, p: nat, sh': Shared)
    requires SharedInv(sh) && Does(sh, p, TakeClaim, sh')
    ensures SharedInv(sh')
  {}

  lemma SettleKeepsShared(sh: Shared, p: nat, eff: Effect, sh': Shared)
    requires SharedInv(sh) && eff.Settle? && Does(sh, p, eff, sh')
    ensures SharedInv(sh')
  {}

  lemma EffectKeepsShared(sh: Shared, p: nat, eff: Effect, sh': Shared)
    requires SharedInv(sh) && Entitled(sh, p, eff) && Does(sh, p, eff, sh')
    ensures SharedInv(sh')
  {
    match eff
    case InBlock(b) => BlockKeepsCopy(sh, b);
    case TakeClaim => ClaimKeepsShared(sh, p, sh');
    case Settle(_, _) => SettleKeepsShared(sh, p, eff, sh');
    case _ =>
  }

  lemma EffectKeepsOthers(sh: Shared, p: nat, eff: Effect, sh': Shared, q: nat, v: Proc)
    requires SharedInv(sh) && Entitled(sh, p, eff) && Does(sh, p, eff, sh')
    requires ProcInv(sh, q, v) && p != q
    ensures ProcInv(sh', q, v)
  {}

  lemma WrapperStaysInStep(sh: Shared, p: nat, w: Proc, eff: Effect, sh': Shared, w': Proc)
    requires SharedInv(sh) && ProcInv(sh, p, w) && w.Wrapper?
    requires Does(sh, p, eff, sh') && Moves(sh, w, eff, w')
    ensures ProcInv(sh', p, w')
  {}

  lemma ReconcilerStaysInStep(sh: Shared, p: nat, w: Proc, eff: Effect, sh': Shared, w': Proc)
    requires SharedInv(sh) && ProcInv(sh, p, w) && !w.Wrapper?
    requires Does(sh, p, eff, sh') && Moves(sh, w, eff, w')
    ensures ProcInv(sh', p, w')
  {}

  lemma SubmitterKeepsInv(s: State, e: Event, s': State)
    requires Inv(s) && Step(s, e, s') && !e.Act? && !e.Spawn? && !e.Signal? && !e.Kill?
    ensures Inv(s')
  {}

  lemma ProcessEventKeepsInv(s: State, e: Event, s': State)
    requires Inv(s) && Step(s, e, s') && (e.Spawn? || e.Signal? || e.Kill?)
    ensures Inv(s')
  {}

  lemma ActKeepsProcs(s: State, e: Event, s': State, q: nat)
    requires Inv(s) && Step(s, e, s') && e.Act? && q in s'.procs && Entitled(s.sh, e.p, e.eff)
    ensures ProcInv(s'.sh, q, s'.procs[q])
  {
    var w, w' := s.procs[e.p], s'.procs[e.p];
    if q != e.p {
      EffectKeepsOthers(s.sh, e.p, e.eff, s'.sh, q, s.procs[q]);
    } else if w.Wrapper? {
      WrapperStaysInStep(s.sh, e.p, w, e.eff, s'.sh, w');
    } else {
      ReconcilerStaysInStep(s.sh, e.p, w, e.eff, s'.sh, w');
    }
  }

  lemma ActKeepsInv(s: State, e: Event, s': State)
    requires Inv(s) && Step(s, e, s') && e.Act?
    ensures Inv(s')
  {
    ProgramIsEntitled(s.sh, e.p, s.procs[e.p], e.eff, s'.procs[e.p]);
    EffectKeepsShared(s.sh, e.p, e.eff, s'.sh);
    forall q | q in s'.procs ensures ProcInv(s'.sh, q, s'.procs[q]) {
      ActKeepsProcs(s, e, s', q);
    }
  }

  lemma StepKeepsInv(s: State, e: Event, s': State)
    requires Inv(s) && Step(s, e, s')
    ensures Inv(s')
  {
    if e.Act? {
      ActKeepsInv(s, e, s');
    } else if e.Spawn? || e.Signal? || e.Kill? {
      ProcessEventKeepsInv(s, e, s');
    } else {
      SubmitterKeepsInv(s, e, s');
    }
  }

  lemma {:induction false} RunKeepsInv(t: Trace, i: nat)
    requires IsRun(t) && i < |t.states|
    ensures Inv(t.states[i])
  {
    if i > 0 {
      RunKeepsInv(t, i - 1);
      StepKeepsInv(t.states[i - 1], t.events[i - 1], t.states[i]);
    }
  }
}
