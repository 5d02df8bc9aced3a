/**
 * launchd's accepted-content index: a cache of what was last loaded, which lets activation
 * skip a reload.  It has to agree with what is really loaded.
 *
 * Definitions are keyed by label, here called job; the plist of a job is its only file.
 */
module LaunchdIndex {
  import opened Common

  /** A content hash, taken to be injective. */
  datatype Digest = Digest(text: string)

  datatype LoadState = Loaded | NotLoaded | Unknown

  /** What launchctl answers to the commands one operation may send for one job. */
  datatype Replies = Replies(permitted: bool, state: LoadState, bootout: bool, bootstrap: bool)

  /**
   * loaded is what the scheduler has really loaded, index what the tool recorded as accepted,
   * disk the plists in the unit directory.
   */
  datatype Launchd = Launchd(loaded: map<string, string>, index: map<string, Digest>, disk: map<string, string>)

  /** A definite answer about a job is true; an unreachable domain or another error is unknown. */
  predicate Truthful(s: Launchd, job: string, r: Replies) {
    (r.state.Loaded? ==> job in s.loaded) && (r.state.NotLoaded? ==> job !in s.loaded)
  }

  function Unloaded(s: Launchd, job: string): Launchd {
    s.(loaded := s.loaded - {job})
  }

  /** Bootstrapping succeeds only for a plist that exists and a job that is not loaded. */
  predicate Bootstraps(s: Launchd, job: string, r: Replies) {
    r.bootstrap && job in s.disk && job !in s.loaded
  }

  function Bootstrapped(s: Launchd, job: string): Launchd
    requires job in s.disk
  {
    s.(loaded := s.loaded[job := s.disk[job]])
  }

  predicate Stale(s: Launchd, job: string, wanted: string, rewritten: bool) {
    rewritten || job !in s.index || s.index[job] != Digest(wanted)
  }

  /** Activation of one job: the new state and whether every command was obeyed. */
  function Activated(s: Launchd, job: string, wanted: string, rewritten: bool, r: Replies): (Launchd, bool) {
    if !r.permitted then (s, false)
    else
      var mustUnload := (Stale(s, job, wanted, rewritten) || r.state.Unknown?) && !r.state.NotLoaded?;
      if mustUnload && !r.bootout then (s, false)
      else
        var s1 := if mustUnload then Unloaded(s, job) else s;
        var mustLoad := mustUnload || r.state.NotLoaded?;
        if mustLoad && !Bootstraps(s1, job, r) then (s1, false)
        else
          var s2 := if mustLoad then Bootstrapped(s1, job) else s1;
          (s2.(index := s2.index[job := Digest(wanted)]), true)
  }

  /** Deactivation goes through the jobs and stops at the first refusal. */
  function Deactivated(s: Launchd, jobs: seq<string>, r: string -> Replies): (Launchd, bool)
    decreases |jobs|
  {
    if jobs == [] then (s, true)
    else
      var job := jobs[0];
      if r(job).state.NotLoaded? then
        Deactivated(s.(index := s.index - {job}), jobs[1..], r)
      else if r(job).bootout then
        Deactivated(Unloaded(s, job).(index := s.index - {job}), jobs[1..], r)
      else (s, false)
  }

  function Paused(s: Launchd, job: string, r: Replies): (Launchd, bool) {
    if !r.permitted then (s, false)
    else if r.state.NotLoaded? then (s, true)
    else if r.bootout then (Unloaded(s, job), true)
    else (s, false)
  }

  function Resumed(s: Launchd, job: string, r: Replies): (Launchd, bool) {
    if !r.permitted then (s, false)
    else if r.state.Loaded? then (s, true)
    else if r.state.Unknown? && !r.bootout then (s, false)
    else
      var s1 := if r.state.Unknown? then Unloaded(s, job) else s;
      if Bootstraps(s1, job, r) then (Bootstrapped(s1, job), true) else (s1, false)
  }

  // ---- The cache agrees with the scheduler ----

  /** A loaded job with a recorded hash has content of that hash. */
  predicate Agrees(s: Launchd) {
    forall job | job in s.loaded && job in s.index :: s.index[job] == Digest(s.loaded[job])
  }

  /** Activating what is on disk keeps the cache truthful, wherever the commands stop. */
  lemma ActivateAgrees(s: Launchd, job: string, rewritten: bool, r: Replies)
    requires Agrees(s) && job in s.disk && Truthful(s, job, r)
    ensures Agrees(Activated(s, job, s.disk[job], rewritten, r).0)
  {}

  /** An obeyed activation leaves exactly the wanted content loaded, even if it skipped the reload. */
  lemma ActivateLoadsTheWanted(s: Launchd, job: string, rewritten: bool, r: Replies)
    requires Agrees(s) && job in s.disk && Truthful(s, job, r)
    ensures var (s', ok) := Activated(s, job, s.disk[job], rewritten, r);
      ok ==> job in s'.loaded && s'.loaded[job] == s.disk[job] && s'.index[job] == Digest(s.disk[job])
  {}

  /** Without the agreement a skipped reload could leave old content running. */
  lemma DisagreementHidesOldContent() returns (s: Launchd, r: Replies)
    ensures !Agrees(s) && "a" in s.disk && Truthful(s, "a", r)
    ensures var (s', ok) := Activated(s, "a", s.disk["a"], false, r);
      ok && "a" in s'.loaded && s'.loaded["a"] != s.disk["a"]
  {
    s := Launchd(map["a" := "old"], map["a" := Digest("new")], map["a" := "new"]);
    r := Replies(true, Loaded, true, true);
    assert s.loaded["a"][0] != s.disk["a"][0];
  }

  lemma {:induction false} DeactivateAgrees(s: Launchd, jobs: seq<string>, r: string -> Replies)
    requires Agrees(s)
    ensures Agrees(Deactivated(s, jobs, r).0)
    decreases |jobs|
  {
    if jobs != [] {
      var job := jobs[0];
      if r(job).state.NotLoaded? {
        DeactivateAgrees(s.(index := s.index - {job}), jobs[1..], r);
      } else if r(job).bootout {
        DeactivateAgrees(Unloaded(s, job).(index := s.index - {job}), jobs[1..], r);
      }
    }
  }

  predicate Accepted(s: Launchd, job: string) {
    job in s.disk && job in s.index ==> s.index[job] == Digest(s.disk[job])
  }

  lemma AcceptedResumeAgrees(s: Launchd, job: string, r: Replies)
    requires Agrees(s) && Truthful(s, job, r) && Accepted(s, job)
    ensures Agrees(Resumed(s, job, r).0)
  {}

  /**
   * Resuming loads whatever plist is on disk and records nothing: the cache stays truthful
   * under all truthful answers if and only if the plist on disk is the accepted one, or there
   * is no plist or no record of it.
   */
  lemma ResumeAgreesWhenAccepted(s: Launchd, job: string)
    requires Agrees(s)
    ensures (forall r | Truthful(s, job, r) :: Agrees(Resumed(s, job, r).0)) <==> Accepted(s, job)
  {
    if Accepted(s, job) {
      forall r | Truthful(s, job, r) ensures Agrees(Resumed(s, job, r).0) {
        AcceptedResumeAgrees(s, job, r);
      }
    } else {
      var r := Replies(true, if job in s.loaded then Unknown else NotLoaded, true, true);
      var s' := Resumed(s, job, r).0;
      assert s'.loaded[job] == s.disk[job] && s'.index == s.index;
      assert !Agrees(s');
    }
  }

  // ---- What each operation achieves ----

  /** Nothing is known or loaded differently about any other job, and no plist changes. */
  predicate OthersSame(s: Launchd, s': Launchd, jobs: set<string>) {
    && s'.disk == s.disk
    && s'.loaded - jobs == s.loaded - jobs && s'.index - jobs == s.index - jobs
  }

  /**
   * Activation succeeds exactly when every command it has to send is obeyed: an unload if the
   * wanted content is not known to be the loaded one, and a load after that or if nothing is loaded.
   * When it fails it records nothing.
   */
  lemma ActivateSucceeds(s: Launchd, job: string, rewritten: bool, r: Replies)
    requires job in s.disk && Truthful(s, job, r)
    ensures var (s', ok) := Activated(s, job, s.disk[job], rewritten, r);
      var current := !rewritten && job in s.index && s.index[job] == Digest(s.disk[job]) && r.state.Loaded?;
      && (ok <==> r.permitted && (current || r.state.NotLoaded? || r.bootout) && (current || r.bootstrap))
      && (current && r.permitted ==> s'.loaded == s.loaded)
      && (!ok ==> s'.index == s.index && s'.loaded - {job} == s.loaded - {job})
      && (ok && !current ==> job in s'.loaded && s'.loaded[job] == s.disk[job])
      && (ok ==> job in s'.index && s'.index[job] == Digest(s.disk[job]))
      && OthersSame(s, s', {job})
  {}

  predicate Obeyed(r: Replies) {
    r.state.NotLoaded? || r.bootout
  }

  predicate TruthfulAll(s: Launchd, jobs: seq<string>, r: string -> Replies) {
    forall i | 0 <= i < |jobs| :: Truthful(s, jobs[i], r(jobs[i]))
  }

  /** One job of a deactivation that is not refused. */
  function Dropped(s: Launchd, job: string, r: Replies): Launchd {
    (if r.state.NotLoaded? then s else Unloaded(s, job)).(index := s.index - {job})
  }

  lemma DroppedIsGone(s: Launchd, job: string, r: Replies)
    requires Truthful(s, job, r)
    ensures var s' := Dropped(s, job, r);
      job !in s'.loaded && job !in s'.index && OthersSame(s, s', {job})
  {}

  /** A refused deactivation stops at the first job that could not be unloaded. */
  predicate StoppedAt(jobs: seq<string>, r: string -> Replies, n: nat) {
    n < |jobs| && !Obeyed(r(jobs[n])) && forall i | 0 <= i < n :: Obeyed(r(jobs[i]))
  }

  predicate Gone(s: Launchd, job: string) {
    job !in s.loaded && job !in s.index
  }

  /**
   * Deactivation succeeds exactly when no job refuses to unload.  Then no job of the list is loaded
   * or recorded any more; otherwise none of those before the first refusal is.  Jobs that are not
   * in the list keep what is loaded and recorded for them.
   */
  lemma {:induction false} DeactivateUnloads(s: Launchd, jobs: seq<string>, r: string -> Replies)
    requires forall i | 0 <= i < |jobs| && r(jobs[i]).state.NotLoaded? :: jobs[i] !in s.loaded
    ensures var (s', ok) := Deactivated(s, jobs, r);
      && (ok <==> forall i | 0 <= i < |jobs| :: Obeyed(r(jobs[i])))
      && (ok ==> forall i | 0 <= i < |jobs| :: Gone(s', jobs[i]))
      && (forall n: nat, i: nat | StoppedAt(jobs, r, n) && i < n :: Gone(s', jobs[i]))
      && (forall job | Gone(s, job) :: Gone(s', job))
      && (forall job | job !in jobs :: JobSame(s, s', job)) && s'.disk == s.disk
    decreases |jobs|
  {
    if jobs != [] && Obeyed(r(jobs[0])) {
      var s1 := Dropped(s, jobs[0], r(jobs[0]));
      DeactivateUnloads(s1, jobs[1..], r);
      var s' := Deactivated(s, jobs, r).0;
      assert Deactivated(s, jobs, r) == Deactivated(s1, jobs[1..], r);
      assert Gone(s1, jobs[0]);
      RestOfList(jobs, r);
      forall n: nat, i: nat | StoppedAt(jobs, r, n) && i < n ensures Gone(s', jobs[i]) {
        assert StoppedAt(jobs[1..], r, n - 1);
        assert i > 0 ==> jobs[i] == jobs[1..][i - 1];
      }
      forall job | job !in jobs ensures JobSame(s, s', job) {
        assert JobSame(s1, s', job);
      }
      forall i | 0 <= i < |jobs| && Deactivated(s, jobs, r).1 ensures Gone(s', jobs[i]) {
        assert i > 0 ==> jobs[i] == jobs[1..][i - 1];
      }
    }
  }

  lemma RestOfList(jobs: seq<string>, r: string -> Replies)
    requires jobs != []
    ensures (forall i | 0 <= i < |jobs| :: Obeyed(r(jobs[i])))
        <==> Obeyed(r(jobs[0])) && forall i | 0 <= i < |jobs[1..]| :: Obeyed(r(jobs[1..][i]))
  {
    forall i | 0 < i < |jobs| ensures jobs[i] == jobs[1..][i - 1] {}
  }

  /** The same content loaded and the same hash recorded, if any. */
  predicate JobSame(s: Launchd, s': Launchd, job: string) {
    && (job in s'.loaded <==> job in s.loaded) && (job in s.loaded ==> s'.loaded[job] == s.loaded[job])
    && (job in s'.index <==> job in s.index) && (job in s.index ==> s'.index[job] == s.index[job])
  }

  /** Pausing succeeds exactly when the job refuses nothing; then it is not loaded. */
  lemma PauseUnloads(s: Launchd, job: string, r: Replies)
    requires Truthful(s, job, r)
    ensures var (s', ok) := Paused(s, job, r);
      && (ok <==> r.permitted && (r.state.NotLoaded? || r.bootout))
      && (ok ==> job !in s'.loaded) && (!ok ==> s' == s)
      && s'.index == s.index && OthersSame(s, s', {job})
  {}

  /**
   * Resuming succeeds exactly when the job is known to be loaded, or there is a plist and nothing is
   * refused; then it is loaded, with the plist on disk unless it was loaded before.
   */
  lemma ResumeLoads(s: Launchd, job: string, r: Replies)
    requires Truthful(s, job, r)
    ensures var (s', ok) := Resumed(s, job, r);
      && (ok <==>
            && r.permitted
            && (r.state.Loaded? || ((r.state.NotLoaded? || r.bootout) && r.bootstrap && job in s.disk)))
      && (ok ==> job in s'.loaded)
      && (ok && !r.state.Loaded? ==> job in s.disk && s'.loaded[job] == s.disk[job])
      && (ok && r.state.Loaded? ==> s' == s)
      && s'.index == s.index && OthersSame(s, s', {job})
  {}

  // ---- Sessions ----

  datatype Operation =
    | Put(job: string, text: string)                       // apply writes the plist
    | Drop(job: string)                                    // apply deletes the plist
    | Activate(job: string, rewritten: bool)               // with what is on disk
    | Deactivate(jobs: seq<string>)
    | Pause(job: string)
    | Resume(job: string)
    | Vanish(job: string)                                  // the scheduler forgets a job

  function After(s: Launchd, op: Operation, r: string -> Replies): Launchd {
    match op
    case Put(job, text) => s.(disk := s.disk[job := text])
    case Drop(job) => s.(disk := s.disk - {job})
    case Activate(job, rewritten) =>
      if job in s.disk then Activated(s, job, s.disk[job], rewritten, r(job)).0 else s
    case Deactivate(jobs) => Deactivated(s, jobs, r).0
    case Pause(job) => Paused(s, job, r(job)).0
    case Resume(job) => Resumed(s, job, r(job)).0
    case Vanish(job) => Unloaded(s, job)
  }

  /** Answers are truthful, and resume is used only on the accepted plist. */
  predicate Sound(s: Launchd, op: Operation, r: string -> Replies) {
    match op
    case Activate(job, _) => Truthful(s, job, r(job))
    case Resume(job) => Truthful(s, job, r(job)) && Accepted(s, job)
    case _ => true
  }

  function Session(s: Launchd, steps: seq<(Operation, string -> Replies)>): Launchd
    decreases |steps|
  {
    if steps == [] then s else Session(After(s, steps[0].0, steps[0].1), steps[1..])
  }

  predicate SoundSession(s: Launchd, steps: seq<(Operation, string -> Replies)>)
    decreases |steps|
  {
    steps == [] ||
    (Sound(s, steps[0].0, steps[0].1) && SoundSession(After(s, steps[0].0, steps[0].1), steps[1..]))
  }

  lemma StepAgrees(s: Launchd, op: Operation, r: string -> Replies)
    requires Agrees(s) && Sound(s, op, r)
    ensures Agrees(After(s, op, r))
  {
    match op
    case Activate(job, rewritten) =>
      if job in s.disk {
        ActivateAgrees(s, job, rewritten, r(job));
      }
    case Deactivate(jobs) => DeactivateAgrees(s, jobs, r);
    case Resume(job) => AcceptedResumeAgrees(s, job, r(job));
    case _ =>
  }

  /** Over any sequence of operations, with any command refused, the cache stays truthful. */
  lemma {:induction false} SessionsAgree(s: Launchd, steps: seq<(Operation, string -> Replies)>)
    requires Agrees(s) && SoundSession(s, steps)
    ensures Agrees(Session(s, steps))
    decreases |steps|
  {
    if steps != [] {
      StepAgrees(s, steps[0].0, steps[0].1);
      SessionsAgree(After(s, steps[0].0, steps[0].1), steps[1..]);
    }
  }

  /** Writing and deleting plists loads and records nothing. */
  lemma PlistsOnDisk(s: Launchd, job: string, text: string, r: string -> Replies)
    ensures After(s, Put(job, text), r) == Launchd(s.loaded, s.index, s.disk[job := text])
    ensures After(s, Drop(job), r) == Launchd(s.loaded, s.index, s.disk - {job})
  {}

  /** A plist that is written and then activated with every command obeyed is what runs. */
  lemma WrittenThenActivated(s: Launchd, job: string, text: string, rewritten: bool, r: string -> Replies)
    requires Agrees(s) && Truthful(s, job, r(job)) && r(job).permitted && r(job).bootout && r(job).bootstrap
    ensures var s' := After(After(s, Put(job, text), r), Activate(job, rewritten), r);
      job in s'.loaded && s'.loaded[job] == text && job in s'.index && s'.index[job] == Digest(text)
  {
    var put := After(s, Put(job, text), r);
    ActivateSucceeds(put, job, rewritten, r(job));
    ActivateLoadsTheWanted(put, job, rewritten, r(job));
  }

  /** Operations that load a job. */
  predicate Loads(op: Operation, job: string) {
    (op.Activate? || op.Resume?) && op.job == job
  }

  lemma StepStaysUnloaded(s: Launchd, op: Operation, r: string -> Replies, job: string)
    requires job !in s.loaded && !Loads(op, job)
    ensures job !in After(s, op, r).loaded
  {
    match op
    case Deactivate(jobs) => DeactivateStaysUnloaded(s, jobs, r, job);
    case _ =>
  }

  lemma {:induction false} DeactivateStaysUnloaded(s: Launchd, jobs: seq<string>, r: string -> Replies, job: string)
    requires job !in s.loaded
    ensures job !in Deactivated(s, jobs, r).0.loaded
    decreases |jobs|
  {
    if jobs != [] && Obeyed(r(jobs[0])) {
      DeactivateStaysUnloaded(Dropped(s, jobs[0], r(jobs[0])), jobs[1..], r, job);
    }
  }

  lemma {:induction false} StaysUnloaded(s: Launchd, steps: seq<(Operation, string -> Replies)>, job: string)
    requires job !in s.loaded && forall i | 0 <= i < |steps| :: !Loads(steps[i].0, job)
    ensures job !in Session(s, steps).loaded
    decreases |steps|
  {
    if steps != [] {
      StepStaysUnloaded(s, steps[0].0, steps[0].1, job);
      StaysUnloaded(After(s, steps[0].0, steps[0].1), steps[1..], job);
    }
  }

  /**
   * A job that a deactivation has reported as unloaded does not run again, whatever follows,
   * unless it is activated or resumed.
   */
  lemma DeactivatedStaysOut(s: Launchd, jobs: seq<string>, r: string -> Replies, i: nat,
                            steps: seq<(Operation, string -> Replies)>)
    requires TruthfulAll(s, jobs, r) && Deactivated(s, jobs, r).1 && i < |jobs|
    requires forall k | 0 <= k < |steps| :: !Loads(steps[k].0, jobs[i])
    ensures jobs[i] !in Session(Deactivated(s, jobs, r).0, steps).loaded
  {
    forall k | 0 <= k < |jobs| && r(jobs[k]).state.NotLoaded? ensures jobs[k] !in s.loaded {
      assert Truthful(s, jobs[k], r(jobs[k]));
    }
    DeactivateUnloads(s, jobs, r);
    StaysUnloaded(Deactivated(s, jobs, r).0, steps, jobs[i]);
  }

  // ---- The operations as they update the state ----

  class LaunchdBackend {
    var loaded: map<string, string>
    var index: map<string, Digest>
    var disk: map<string, string>

    function Value(): Launchd
      reads this
    {
      Launchd(loaded, index, disk)
    }

    constructor (disk: map<string, string>)
      ensures Value() == Launchd(map[], map[], disk)
    {
      this.loaded, this.index, this.disk := map[], map[], disk;
    }

    method Bootout(job: string, r: Replies) returns (ok: bool)
      modifies `loaded
      ensures ok == r.bootout
      ensures Value() == if ok then Unloaded(old(Value()), job) else old(Value())
    {
      if r.bootout {
        loaded := loaded - {job};
      }
      return r.bootout;
    }

    method Bootstrap(job: string, r: Replies) returns (ok: bool)
      modifies `loaded
      ensures ok == Bootstraps(old(Value()), job, r)
      ensures Value() == if ok then Bootstrapped(old(Value()), job) else old(Value())
    {
      if !r.bootstrap || job !in disk || job in loaded {
        return false;
      }
      loaded := loaded[job := disk[job]];
      return true;
    }

    method ActivateLabel(job: string, wanted: string, rewritten: bool, r: Replies) returns (ok: bool)
      modifies `loaded, `index
      ensures (Value(), ok) == Activated(old(Value()), job, wanted, rewritten, r)
    {
      if !r.permitted {
        return false;
      }
      var state := r.state;
      var stale := rewritten || job !in index || index[job] != Digest(wanted);
      if (stale || state.Unknown?) && !state.NotLoaded? {
        var stopped := Bootout(job, r);
        if !stopped {
          return false;
        }
        state := NotLoaded;
      }
      if !state.Loaded? {
        var started := Bootstrap(job, r);
        if !started {
          return false;
        }
      }
      index := index[job := Digest(wanted)];
      return true;
    }

    method DeactivateAll(jobs: seq<string>, r: string -> Replies) returns (ok: bool)
      modifies `loaded, `index
      ensures (Value(), ok) == Deactivated(old(Value()), jobs, r)
    {
      ghost var whole := Deactivated(Value(), jobs, r);
      assert jobs[0..] == jobs;
      for i := 0 to |jobs|
        invariant whole == Deactivated(Value(), jobs[i..], r)
        invariant disk == old(disk)
      {
        var job := jobs[i];
        assert jobs[i..][1..] == jobs[i + 1..];
        if r(job).state.NotLoaded? {
          index := index - {job};
        } else {
          var stopped := Bootout(job, r(job));
          if !stopped {
            return false;
          }
          index := index - {job};
        }
      }
      return true;
    }

    method PauseLabel(job: string, r: Replies) returns (ok: bool)
      modifies `loaded
      ensures (Value(), ok) == Paused(old(Value()), job, r)
    {
      if !r.permitted {
        return false;
      }
      if r.state.NotLoaded? {
        return true;
      }
      ok := Bootout(job, r);
    }

    method ResumeLabel(job: string, r: Replies) returns (ok: bool)
      modifies `loaded
      ensures (Value(), ok) == Resumed(old(Value()), job, r)
    {
      if !r.permitted {
        return false;
      }
      if r.state.Loaded? {
        return true;
      }
      if r.state.Unknown? {
        var stopped := Bootout(job, r);
        if !stopped {
          return false;
        }
      }
      ok := Bootstrap(job, r);
    }
  }
}
