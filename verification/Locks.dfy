/**
 * The locks around a run: one implicit run lock per task and an optional named lock, taken
 * without waiting.  Installed runs keep their run locks in the state directory; a transient
 * run keeps its own below its history but shares the named locks.
 */
module Locks {
  import opened Common
  import opened Text

  // ---- Paths, below the state directory ----

  /** What the lock name pattern accepts: its end anchor also matches before a final line feed. */
  predicate LockName(name: string) {
    PlainName(name) || (name != "" && name[|name| - 1] == '\n' && PlainName(name[..|name| - 1]))
  }

  predicate Base(name: string) {
    && name != "" && ('0' <= name[0] <= '9' || 'A' <= name[0] <= 'Z' || 'a' <= name[0] <= 'z')
    && forall i | 0 <= i < |name| ::
         || '0' <= name[i] <= '9' || 'A' <= name[i] <= 'Z' || 'a' <= name[i] <= 'z'
         || name[i] == '.' || name[i] == '_' || name[i] == '-'
  }

  /** A letter or digit, then letters, digits, dots, underscores and hyphens, and perhaps one line feed. */
  lemma LockNamesMean(name: string)
    ensures LockName(name) <==> Base(name) || exists base :: Base(base) && name == base + "\n"
  {
    if name != "" && name[|name| - 1] == '\n' {
      assert name == name[..|name| - 1] + "\n";
    }
    forall base | Base(base) && name == base + "\n" ensures PlainName(name[..|name| - 1]) {
      assert name[..|name| - 1] == base;
    }
  }

  datatype Kind = Installed | Transient(digits: string)

  function NamedPath(name: string): string {
    "locks/" + name + ".lock"
  }

  function RunPath(kind: Kind, task: string): string {
    match kind
    case Installed => "locks/tasks/" + task + ".lock"
    case Transient(digits) => "transient/" + digits + "/history/locks/tasks/" + task + ".lock"
  }

  lemma NameHasNoSlash(name: string)
    requires LockName(name)
    ensures forall i | 0 <= i < |name| :: name[i] != '/'
  {
    if !PlainName(name) {
      forall i | 0 <= i < |name| - 1 ensures name[i] != '/' {
        assert name[i] == name[..|name| - 1][i];
      }
    }
  }

  /** No lock name a task can declare is the path of a run lock. */
  lemma RunAndNamedLocksNeverCollide(name: string, kind: Kind, task: string)
    requires LockName(name)
    ensures NamedPath(name) != RunPath(kind, task)
  {
    NameHasNoSlash(name);
    var n, r := NamedPath(name), RunPath(kind, task);
    match kind
    case Transient(digits) => assert n[0] == 'l' && r[0] == 't';
    case Installed =>
      assert r[11] == '/';
      if |n| == |r| {
        assert n[11] == (name + ".lock")[5];
      }
  }

  /** Different tasks have different run locks, different names different named locks. */
  lemma PathsAreInjective(a: string, b: string)
    ensures NamedPath(a) == NamedPath(b) ==> a == b
    ensures RunPath(Installed, a) == RunPath(Installed, b) ==> a == b
  {
    if NamedPath(a) == NamedPath(b) {
      Wrapped("locks/", a, b, ".lock");
    }
    if RunPath(Installed, a) == RunPath(Installed, b) {
      Wrapped("locks/tasks/", a, b, ".lock");
    }
  }

  /** Runs of different executions, and installed and transient runs, never share a run lock. */
  lemma RunPathsAreInjective(a: Kind, s: string, b: Kind, t: string)
    requires a.Transient? ==> |a.digits| == 32
    requires b.Transient? ==> |b.digits| == 32
    ensures RunPath(a, s) == RunPath(b, t) <==> a == b && s == t
  {
    var x, y := RunPath(a, s), RunPath(b, t);
    if x == y {
      assert a.Transient? <==> x[0] == 't';
      assert b.Transient? <==> y[0] == 't';
      if a.Transient? {
        TransientPathHas(a.digits, s);
        TransientPathHas(b.digits, t);
      } else {
        PathsAreInjective(s, t);
      }
    }
  }

  lemma TransientPathHas(digits: string, task: string)
    requires |digits| == 32
    ensures var x := RunPath(Transient(digits), task);
      |x| == 68 + |task| && x[10..42] == digits && x[63..63 + |task|] == task
  {
    var x := RunPath(Transient(digits), task);
    assert x == "transient/" + digits + ("/history/locks/tasks/" + task + ".lock");
    assert x == ("transient/" + digits + "/history/locks/tasks/") + task + ".lock";
  }

  // ---- Runs as a step system ----

  datatype Outcome = Skipped | Errored | Executed

  datatype Pc =
    | AtRunLock            // recorded, about to try the run lock
    | AtNamedLock          // holds the run lock
    | Inside               // in _execute
    | Finished(outcome: Outcome)
    | Crashed

  datatype Run = Run(kind: Kind, task: string, mutex: Option<string>, disabled: bool, pc: Pc)

  /** Who holds each locked path; the kernel releases the locks of a process that ends. */
  datatype State = State(held: map<string, nat>, runs: map<nat, Run>)

  function Holding(run: Run): set<string> {
    match run.pc
    case AtNamedLock => {RunPath(run.kind, run.task)}
    case Inside => {RunPath(run.kind, run.task)} + (if run.mutex.Some? then {NamedPath(run.mutex.value)} else {})
    case _ => {}
  }

  datatype Event =
    | Spawn(p: nat, run: Run)
    | Advance(p: nat)
    | Crash(p: nat)

  /** The path an advance tries to lock, if it tries one. */
  function Wants(run: Run): Option<string> {
    match run.pc
    case AtRunLock => if run.disabled then None else Some(RunPath(run.kind, run.task))
    case AtNamedLock =>
      if run.mutex.Some? && LockName(run.mutex.value) then Some(NamedPath(run.mutex.value)) else None
    case _ => None
  }

  /** Where an advance leads: a non-blocking attempt either succeeds or ends the run as skipped. */
  function Next(run: Run, busy: bool): Pc
    requires !run.pc.Finished? && !run.pc.Crashed?
  {
    match run.pc
    case AtRunLock => if run.disabled || busy then Finished(Skipped) else AtNamedLock
    case AtNamedLock =>
      if run.mutex.None? then Inside
      else if !LockName(run.mutex.value) then Finished(Errored)
      else if busy then Finished(Skipped)
      else Inside
    case Inside => Finished(Executed)
  }

  predicate Live(run: Run) {
    !run.pc.Finished? && !run.pc.Crashed?
  }

  predicate Busy(s: State, run: Run) {
    Wants(run).Some? && Wants(run).value in s.held
  }

  /** Drop everything p held, then record what it holds now. */
  function Relocked(held: map<string, nat>, p: nat, run: Run): map<string, nat> {
    (map path | path in held && held[path] != p :: held[path]) + (map path | path in Holding(run) :: p)
  }

  predicate Step(s: State, e: Event, s': State) {
    match e
    case Spawn(p, run) =>
      p !in s.runs && run.pc.AtRunLock? && s' == s.(runs := s.runs[p := run])
    case Advance(p) =>
      && p in s.runs && Live(s.runs[p])
      && var run := s.runs[p].(pc := Next(s.runs[p], Busy(s, s.runs[p])));
         s' == State(Relocked(s.held, p, run), s.runs[p := run])
    case Crash(p) =>
      && p in s.runs
      && var run := s.runs[p].(pc := Crashed);
         s' == State(Relocked(s.held, p, run), s.runs[p := run])
  }

  datatype Trace = Trace(states: seq<State>, events: seq<Event>)

  predicate IsTrace(t: Trace) {
    && |t.states| == |t.events| + 1
    && t.states[0] == State(map[], map[])
    && forall i | 0 <= i < |t.events| :: Step(t.states[i], t.events[i], t.states[i + 1])
  }

  // ---- The invariant: the kernel's table is exactly what the runs hold ----

  predicate HoldsAll(s: State, p: nat)
    requires p in s.runs
  {
    forall path | path in Holding(s.runs[p]) :: path in s.held && s.held[path] == p
  }

  predicate Inv(s: State) {
    && (forall path | path in s.held :: s.held[path] in s.runs && path in Holding(s.runs[s.held[path]]))
    && (forall p | p in s.runs :: HoldsAll(s, p))
  }

  /** An advance takes no path that another run holds. */
  lemma AdvanceTakesFreePaths(s: State, p: nat)
    requires Inv(s) && p in s.runs && Live(s.runs[p])
    ensures var run := s.runs[p].(pc := Next(s.runs[p], Busy(s, s.runs[p])));
      forall path | path in Holding(run) :: path in s.held ==> s.held[path] == p
  {
    assert HoldsAll(s, p);
  }

  lemma RelockingKeepsInv(s: State, p: nat, run: Run)
    requires Inv(s) && p in s.runs
    requires forall path | path in Holding(run) :: path in s.held ==> s.held[path] == p
    ensures Inv(State(Relocked(s.held, p, run), s.runs[p := run]))
  {
    var s' := State(Relocked(s.held, p, run), s.runs[p := run]);
    forall q | q in s'.runs ensures HoldsAll(s', q) {
      if q != p {
        assert HoldsAll(s, q);
      }
    }
  }

  lemma StepKeepsInv(s: State, e: Event, s': State)
    requires Inv(s) && Step(s, e, s')
    ensures Inv(s')
  {
    match e
    case Spawn(p, run) =>
      forall q | q in s'.runs ensures HoldsAll(s', q) {
        if q != p {
          assert HoldsAll(s, q);
        }
      }
    case Advance(p) =>
      AdvanceTakesFreePaths(s, p);
      RelockingKeepsInv(s, p, s'.runs[p]);
    case Crash(p) =>
      RelockingKeepsInv(s, p, s'.runs[p]);
  }

  lemma {:induction false} TraceKeepsInv(t: Trace, i: nat)
    requires IsTrace(t) && i < |t.states|
    ensures Inv(t.states[i])
  {
    if i > 0 {
      TraceKeepsInv(t, i - 1);
      StepKeepsInv(t.states[i - 1], t.events[i - 1], t.states[i]);
    }
  }

  // ---- What the locks are for ----

  /**
   * Over all interleavings and crashes: two runs inside at the same time are not runs of the
   * same task of the same kind, and do not name the same lock, whichever of the two kinds they are.
   */
  lemma MutualExclusion(t: Trace, i: nat, p: nat, q: nat)
    requires IsTrace(t) && i < |t.states|
    requires p != q && p in t.states[i].runs && q in t.states[i].runs
    requires t.states[i].runs[p].pc.Inside? && t.states[i].runs[q].pc.Inside?
    ensures var a, b := t.states[i].runs[p], t.states[i].runs[q];
      && (a.kind == b.kind ==> a.task != b.task)
      && (a.mutex.Some? && b.mutex.Some? ==> a.mutex.value != b.mutex.value)
  {
    TraceKeepsInv(t, i);
    var s := t.states[i];
    var a, b := s.runs[p], s.runs[q];
    assert HoldsAll(s, p) && HoldsAll(s, q);
    assert RunPath(a.kind, a.task) in Holding(a) && RunPath(b.kind, b.task) in Holding(b);
    if a.mutex.Some? && b.mutex.Some? {
      assert NamedPath(a.mutex.value) in Holding(a) && NamedPath(b.mutex.value) in Holding(b);
    }
  }

  function StepsLeft(pc: Pc): nat {
    match pc
    case AtRunLock => 3
    case AtNamedLock => 2
    case Inside => 1
    case _ => 0
  }

  /** How many steps of its own a run makes from step i to step j. */
  function OwnSteps(t: Trace, p: nat, i: nat, j: nat): nat
    requires i <= j <= |t.events|
  {
    if i == j then 0 else OwnSteps(t, p, i, j - 1) + if t.events[j - 1] == Advance(p) then 1 else 0
  }

  /** Every step of its own brings a run nearer to its end, and nobody else's takes it back. */
  lemma StepBringsNearer(s: State, e: Event, s': State, p: nat)
    requires Step(s, e, s') && p in s.runs
    ensures p in s'.runs
    ensures StepsLeft(s'.runs[p].pc) + (if e == Advance(p) then 1 else 0) <= StepsLeft(s.runs[p].pc)
  {}

  /** No run ever waits for another: whatever others hold or do, it is over after three steps of its own. */
  lemma {:induction false} NobodyBlocks(t: Trace, p: nat, i: nat, j: nat)
    requires IsTrace(t) && i <= j < |t.states| && p in t.states[i].runs
    ensures p in t.states[j].runs
    ensures OwnSteps(t, p, i, j) + StepsLeft(t.states[j].runs[p].pc) <= StepsLeft(t.states[i].runs[p].pc) <= 3
    ensures OwnSteps(t, p, i, j) >= 3 ==> !Live(t.states[j].runs[p])
  {
    if i < j {
      NobodyBlocks(t, p, i, j - 1);
      StepBringsNearer(t.states[j - 1], t.events[j - 1], t.states[j], p);
    }
  }

  /** And there always is such a step. */
  lemma LiveRunsCanStep(s: State, p: nat)
    requires p in s.runs && Live(s.runs[p])
    ensures exists s' :: Step(s, Advance(p), s')
  {
    var run := s.runs[p].(pc := Next(s.runs[p], Busy(s, s.runs[p])));
    assert Step(s, Advance(p), State(Relocked(s.held, p, run), s.runs[p := run]));
  }

  /**
   * A step ends a run as skipped if and only if the task is disabled or the path it tried is
   * held by another run that is still alive, and as failed if and only if the name of its lock is
   * invalid; a run that is over keeps no lock.
   */
  lemma SkippedMeansContended(s: State, p: nat, s': State)
    requires Inv(s) && Step(s, Advance(p), s')
    ensures s'.runs[p].pc == Finished(Skipped) <==>
      || (s.runs[p].pc.AtRunLock? && s.runs[p].disabled)
      || (Wants(s.runs[p]).Some? && exists q | q in s.runs ::
            q != p && Live(s.runs[q]) && Wants(s.runs[p]).value in Holding(s.runs[q]))
    ensures s'.runs[p].pc == Finished(Errored) <==>
      s.runs[p].pc.AtNamedLock? && s.runs[p].mutex.Some? && !LockName(s.runs[p].mutex.value)
    ensures !Live(s'.runs[p]) ==> forall path | path in s'.held :: s'.held[path] != p
  {
    var run := s.runs[p];
    if Wants(run).Some? {
      var path := Wants(run).value;
      WantedIsNotHeld(run);
      if path in s.held {
        assert HoldsAll(s, p);
      } else {
        forall q | q in s.runs ensures path !in Holding(s.runs[q]) {
          assert HoldsAll(s, q);
        }
      }
    }
  }

  /** A run never tries a path it already holds, because run locks and named locks never collide. */
  lemma WantedIsNotHeld(run: Run)
    requires Wants(run).Some?
    ensures Wants(run).value !in Holding(run)
  {
    if run.pc.AtNamedLock? {
      RunAndNamedLocksNeverCollide(run.mutex.value, run.kind, run.task);
    }
  }
}
