/**
 * Installing, replacing and removing tasks: the unit directory and the installed definitions
 * under arbitrary refusals by the scheduler.  The installed tasks are whatever the definition
 * texts on disk are read as when a command starts; no command remembers them.
 */
module UnitDirectory {
  import opened Common
  import opened Text
  import opened TaskSpec
  import opened Catchup
  import opened UnitFiles
  import Definition
  import DefinitionPrinter
  import TomlDocument

  // ---- Commands ----

  /** Unit files by name, and the texts of installed definitions by task name. */
  datatype Disk = Disk(files: map<string, string>, definitions: map<string, string>)

  /** A definition counts if it can be read, bears its own name and has no source-local input. */
  function Readable(name: string, text: string): Option<Task> {
    match Definition.Load(text)
    case Err => None
    case Ok(task) => if task.name == name && task.stdinFile.None? then Some(task) else None
  }

  /** The installed tasks. */
  function Discovered(definitions: map<string, string>): map<string, Task> {
    Discover(Readable, definitions)
  }

  /** Whether the scheduler obeyed each kind of command. */
  datatype Answers = Answers(deactivate: bool, reload: bool, activate: bool, catchup: bool)

  /** Applying a plan is refused as a whole when something has to be deactivated and is not. */
  predicate Applies(c: Setting, disk: Disk, name: string, desired: map<string, string>, a: Answers) {
    a.deactivate || !Removes(disk.files, desired, Scope(c, name))
  }

  function Post(disk: Disk, task: Task): map<string, Task> {
    Discovered(disk.definitions)[task.name := task]
  }

  function InstallDesired(c: Setting, disk: Disk, task: Task): map<string, string> {
    DesiredTaskFiles(c, task) + CatchupDesired(c, Post(disk, task))
  }

  predicate TakesEffect(c: Setting, disk: Disk, task: Task, replaceExisting: bool, a: Answers) {
    && (task.name !in disk.definitions || replaceExisting)
    && Applies(c, disk, task.name, InstallDesired(c, disk, task), a)
  }

  /** The files are reconciled first; then the definition is written, unless it cannot be printed. */
  function Installed(c: Setting, disk: Disk, task: Task, replaceExisting: bool, a: Answers): Disk {
    if !TakesEffect(c, disk, task, replaceExisting, a) then disk
    else
      Disk(Reconciled(disk.files, InstallDesired(c, disk, task), Scope(c, task.name)),
           match Definition.Dump(task)
           case Err => disk.definitions
           case Ok(text) => disk.definitions[task.name := text])
  }

  function RemoveDesired(c: Setting, disk: Disk, name: string): map<string, string> {
    CatchupDesired(c, Discovered(disk.definitions) - {name})
  }

  function Removed(c: Setting, disk: Disk, name: string, a: Answers): Disk {
    if !Applies(c, disk, name, RemoveDesired(c, disk, name), a) then disk
    else
      Disk(Reconciled(disk.files, RemoveDesired(c, disk, name), Scope(c, name)), disk.definitions - {name})
  }

  // ---- What a command leaves to be discovered ----

  /** The task can be printed, and its text is read back as the task. */
  predicate Survives(task: Task) {
    Definition.PrintableTask(task) && Definition.CleanTask(task)
  }

  /** A task as the reader or the command line makes it, with its standard input read in. */
  predicate Installable(task: Task) {
    Definition.Valid(task) && task.stdinFile.None?
  }

  lemma WrittenIsReadable(task: Task)
    requires Installable(task) && Definition.PrintableTask(task)
    ensures Definition.Dump(task).Ok?
    ensures Readable(task.name, Definition.Dump(task).value) == if Definition.CleanTask(task) then Some(task) else None
  {
    Definition.DefinitionRoundTrip(task);
  }

  lemma DiscoveredHasItsName(definitions: map<string, string>, name: string)
    requires name in Discovered(definitions)
    ensures Discovered(definitions)[name].name == name && ValidName(name)
  {}

  /** Every task that is read back is valid, bears the name of its file and has its input read in. */
  lemma DiscoveredIsInstallable(definitions: map<string, string>, name: string)
    requires name in Discovered(definitions)
    ensures var task := Discovered(definitions)[name];
      && Installable(task) && task.name == name
      && name in definitions && Definition.Load(definitions[name]) == Ok(task)
  {
    var data := TomlDocument.ReadDocument(definitions[name]).value;
    Definition.ParsedIsValid(data);
  }

  /** What an install that took effect leaves to be discovered. */
  lemma DiscoveredAfterInstall(c: Setting, disk: Disk, task: Task, replaceExisting: bool, a: Answers)
    requires Installable(task) && TakesEffect(c, disk, task, replaceExisting, a)
    ensures var before, after :=
        Discovered(disk.definitions), Discovered(Installed(c, disk, task, replaceExisting, a).definitions);
      after == if Survives(task) then before[task.name := task]
               else if Definition.PrintableTask(task) then before - {task.name}
               else before
  {
    if Definition.PrintableTask(task) {
      WrittenIsReadable(task);
      DiscoverWith(Readable, disk.definitions, task.name, Definition.Dump(task).value);
    }
  }

  // ---- The global artifact invariant ----

  /**
   * The managed files on disk are exactly the desired files of the installed tasks, plus the
   * catch-up files if and only if some enabled persistent calendar task is installed.
   */
  ghost predicate Consistent(c: Setting, disk: Disk) {
    FilesMatch(c, disk.files, Discovered(disk.definitions))
  }

  // ---- Commands and the invariant ----

  const EMPTY := Disk(map[], map[])

  /** The task's files and the catch-up files are already what installing it wants. */
  predicate SameWishes(c: Setting, disk: Disk, task: Task) {
    var installed := Discovered(disk.definitions);
    && task.name in installed
    && DesiredTaskFiles(c, task) == DesiredTaskFiles(c, installed[task.name])
    && CatchupDesired(c, Post(disk, task)) == CatchupDesired(c, installed)
  }

  /**
   * Install and replace keep the invariant, whatever the scheduler refuses, if and only if the
   * command is refused as a whole, or the task survives its own text, or it cannot be printed
   * and replaces a task with the same files.
   */
  lemma InstallKeepsConsistent(c: Setting, disk: Disk, task: Task, replaceExisting: bool, a: Answers)
    requires Consistent(c, disk) && Installable(task)
    ensures Consistent(c, Installed(c, disk, task, replaceExisting, a)) <==>
      || !TakesEffect(c, disk, task, replaceExisting, a)
      || Survives(task)
      || (!Definition.PrintableTask(task) && SameWishes(c, disk, task))
  {
    if TakesEffect(c, disk, task, replaceExisting, a) {
      var before := Discovered(disk.definitions);
      var after := Discovered(Installed(c, disk, task, replaceExisting, a).definitions);
      DiscoveredAfterInstall(c, disk, task, replaceExisting, a);
      if task.name in before {
        DiscoveredHasItsName(disk.definitions, task.name);
      }
      EveryTaskWantsFiles(c, task);
      InstallMatches(c, disk.files, task, before, after);
    }
  }

  lemma EmptyIsConsistent(c: Setting)
    ensures Consistent(c, EMPTY)
  {}

  /** Installing a task is safe on every consistent disk if and only if the task survives its own text. */
  lemma SafeExactlyForSurvivors(c: Setting, task: Task)
    requires Installable(task)
    ensures (forall disk, replaceExisting, a | Consistent(c, disk) ::
               Consistent(c, Installed(c, disk, task, replaceExisting, a)))
        <==> Survives(task)
  {
    if Survives(task) {
      forall disk, replaceExisting, a | Consistent(c, disk)
        ensures Consistent(c, Installed(c, disk, task, replaceExisting, a))
      {
        InstallKeepsConsistent(c, disk, task, replaceExisting, a);
      }
    } else {
      var a := Answers(true, true, true, true);
      EmptyIsConsistent(c);
      InstallKeepsConsistent(c, EMPTY, task, false, a);
      assert !Consistent(c, Installed(c, EMPTY, task, false, a));
    }
  }

  /** Remove keeps the invariant, whatever the scheduler refuses, readable definition or not. */
  lemma RemoveKeepsConsistent(c: Setting, disk: Disk, name: string, a: Answers)
    requires Consistent(c, disk) && ValidName(name)
    ensures Consistent(c, Removed(c, disk, name, a))
  {
    if Applies(c, disk, name, RemoveDesired(c, disk, name), a) {
      DiscoverWithout(Readable, disk.definitions, name);
      RemoveMatches(c, disk.files, name, Discovered(disk.definitions));
    }
  }

  // ---- Whole sessions ----

  datatype Command = Install(task: Task, replaceExisting: bool) | Remove(name: string)

  function Target(cmd: Command): string {
    match cmd
    case Install(task, _) => task.name
    case Remove(name) => name
  }

  /** Commands on unsafe or reserved names are refused before anything is read or written. */
  function Perform(c: Setting, disk: Disk, cmd: Command, a: Answers): Disk {
    if !ValidName(Target(cmd)) then disk
    else
      match cmd
      case Install(task, replaceExisting) => Installed(c, disk, task, replaceExisting, a)
      case Remove(name) => Removed(c, disk, name, a)
  }

  function Session(c: Setting, disk: Disk, cmds: seq<(Command, Answers)>): Disk
    decreases |cmds|
  {
    if cmds == [] then disk
    else Session(c, Perform(c, disk, cmds[0].0, cmds[0].1), cmds[1..])
  }

  /** Removals, and installations of tasks that survive their own text. */
  predicate Survivable(cmd: Command) {
    cmd.Install? ==> Installable(cmd.task) && Survives(cmd.task)
  }

  lemma PerformKeepsConsistent(c: Setting, disk: Disk, cmd: Command, a: Answers)
    requires Consistent(c, disk) && Survivable(cmd)
    ensures Consistent(c, Perform(c, disk, cmd, a))
  {
    if ValidName(Target(cmd)) {
      match cmd
      case Install(task, replaceExisting) => InstallKeepsConsistent(c, disk, task, replaceExisting, a);
      case Remove(name) => RemoveKeepsConsistent(c, disk, name, a);
    }
  }

  /**
   * After any sequence of removals, and of installs and replacements of tasks that survive their
   * own texts, with any refusals, the invariant holds.
   */
  lemma {:induction false} SessionsStayConsistent(c: Setting, disk: Disk, cmds: seq<(Command, Answers)>)
    requires Consistent(c, disk) && forall i | 0 <= i < |cmds| :: Survivable(cmds[i].0)
    ensures Consistent(c, Session(c, disk, cmds))
    decreases |cmds|
  {
    if cmds != [] {
      PerformKeepsConsistent(c, disk, cmds[0].0, cmds[0].1);
      SessionsStayConsistent(c, Perform(c, disk, cmds[0].0, cmds[0].1), cmds[1..]);
    }
  }

  lemma ConsistentMeansFiles(c: Setting, disk: Disk, name: string)
    requires Consistent(c, disk) && name in Discovered(disk.definitions)
    ensures HasItsFiles(c, disk.files, Discovered(disk.definitions)[name])
  {
    DiscoveredHasItsName(disk.definitions, name);
    assert TaskFilesRight(c, disk.files, Discovered(disk.definitions), name);
    RightMeansFiles(c, disk.files, Discovered(disk.definitions), name);
  }

  /** And the catch-up files are on disk exactly while a task that catches up is installed. */
  lemma ConsistentMeansCatchup(c: Setting, disk: Disk, f: string)
    requires Consistent(c, disk) && f in CatchupNames(c.backend)
    ensures f in disk.files <==>
      exists name | name in Discovered(disk.definitions) :: CatchesUp(Discovered(disk.definitions)[name])
    ensures f in disk.files ==> f in CatchupFiles(c) && disk.files[f] == CatchupFiles(c)[f]
  {
    CatchupIsWanted(c, Discovered(disk.definitions));
    assert SameAt(disk.files, CatchupDesired(c, Discovered(disk.definitions)), f);
  }

  /** After every session of removals and surviving installs, each installed task has its files. */
  lemma SessionsLeaveTheFiles(c: Setting, disk: Disk, cmds: seq<(Command, Answers)>, name: string)
    requires Consistent(c, disk) && forall i | 0 <= i < |cmds| :: Survivable(cmds[i].0)
    ensures var after := Session(c, disk, cmds);
      name in Discovered(after.definitions) ==> HasItsFiles(c, after.files, Discovered(after.definitions)[name])
  {
    SessionsStayConsistent(c, disk, cmds);
    var after := Session(c, disk, cmds);
    if name in Discovered(after.definitions) {
      ConsistentMeansFiles(c, after, name);
    }
  }

  /** An obeyed install of a surviving task is there afterwards, with its files. */
  lemma InstalledIsThere(c: Setting, disk: Disk, task: Task, replaceExisting: bool, a: Answers)
    requires Consistent(c, disk) && Installable(task) && Survives(task)
    requires TakesEffect(c, disk, task, replaceExisting, a)
    ensures var disk' := Installed(c, disk, task, replaceExisting, a);
      && task.name in Discovered(disk'.definitions) && Discovered(disk'.definitions)[task.name] == task
      && HasItsFiles(c, disk'.files, task)
  {
    InstallKeepsConsistent(c, disk, task, replaceExisting, a);
    DiscoveredAfterInstall(c, disk, task, replaceExisting, a);
    ConsistentMeansFiles(c, Installed(c, disk, task, replaceExisting, a), task.name);
  }

  /** An obeyed removal leaves no file and no definition of the name. */
  lemma RemovedIsGone(c: Setting, disk: Disk, name: string, a: Answers)
    requires ValidName(name) && Applies(c, disk, name, RemoveDesired(c, disk, name), a)
    ensures var disk' := Removed(c, disk, name, a);
      name !in disk'.definitions && forall f | f in PossibleFiles(c.backend, name) :: f !in disk'.files
  {
    FilesOfNamesDisjoint(c.backend, name, "catchup");
  }

  /** Only a refused deactivation of something that is there stops a command. */
  lemma AppliesUnlessRefused(c: Setting, disk: Disk, name: string, desired: map<string, string>, a: Answers)
    ensures Applies(c, disk, name, desired, a) <==>
      a.deactivate || forall f | f in Scope(c, name) :: f in disk.files ==> f in desired
  {}

  lemma InstallIsIsolated(c: Setting, disk: Disk, task: Task, replaceExisting: bool, a: Answers,
                          other: string, f: string)
    requires ValidName(other) && other != task.name && f in PossibleFiles(c.backend, other)
    ensures SameAt(Installed(c, disk, task, replaceExisting, a).files, disk.files, f)
  {
    OthersUntouched(c, disk.files, InstallDesired(c, disk, task), task.name, other, f);
  }

  lemma InstallKeepsDefinitions(c: Setting, disk: Disk, task: Task, replaceExisting: bool, a: Answers, other: string)
    requires other != task.name
    ensures SameAt(Installed(c, disk, task, replaceExisting, a).definitions, disk.definitions, other)
  {}

  lemma RemoveIsIsolated(c: Setting, disk: Disk, name: string, a: Answers, other: string, f: string)
    requires ValidName(other) && other != name && f in PossibleFiles(c.backend, other)
    ensures var disk' := Removed(c, disk, name, a);
      SameAt(disk'.files, disk.files, f) && SameAt(disk'.definitions, disk.definitions, other)
  {
    OthersUntouched(c, disk.files, RemoveDesired(c, disk, name), name, other, f);
  }

  /** No command on one task changes, creates or deletes another task's files or definition. */
  lemma CommandsAreIsolated(c: Setting, disk: Disk, cmd: Command, a: Answers, other: string, f: string)
    requires ValidName(other) && other != Target(cmd) && f in PossibleFiles(c.backend, other)
    ensures var disk' := Perform(c, disk, cmd, a);
      SameAt(disk'.files, disk.files, f) && SameAt(disk'.definitions, disk.definitions, other)
  {
    match cmd
    case Install(task, replaceExisting) =>
      InstallIsIsolated(c, disk, task, replaceExisting, a, other, f);
      InstallKeepsDefinitions(c, disk, task, replaceExisting, a, other);
    case Remove(name) => RemoveIsIsolated(c, disk, name, a, other, f);
  }

  lemma PostIsStable(c: Setting, disk: Disk, task: Task, a: Answers)
    requires Installable(task) && TakesEffect(c, disk, task, true, a)
    ensures Post(Installed(c, disk, task, true, a), task) == Post(disk, task)
  {
    var disk' := Installed(c, disk, task, true, a);
    DiscoveredAfterInstall(c, disk, task, true, a);
    SamePost(Discovered(disk.definitions), Discovered(disk'.definitions), task);
  }

  /** After an obeyed install, planning the same task again finds every name in scope unchanged. */
  lemma InstallIsIdempotent(c: Setting, disk: Disk, task: Task, a: Answers, name: string)
    requires Installable(task) && a.deactivate && name in Scope(c, task.name)
    ensures var disk' := Installed(c, disk, task, true, a);
      && InstallDesired(c, disk', task) == InstallDesired(c, disk, task)
      && (var change := ChangeFor(disk'.files, InstallDesired(c, disk', task), name);
          change == None || change == Some(Change(Unchanged, name)))
  {
    PostIsStable(c, disk, task, a);
    ReconciledIsStable(disk.files, InstallDesired(c, disk, task), Scope(c, task.name), name);
  }

  // ---- What goes wrong otherwise ----

  lemma UnreadableIsNotDiscovered(c: Setting, task: Task, a: Answers)
    requires Installable(task) && Definition.PrintableTask(task) && !Definition.CleanTask(task)
    ensures Discovered(Installed(c, EMPTY, task, false, a).definitions) == map[]
  {
    DiscoveredAfterInstall(c, EMPTY, task, false, a);
    DiscoverNothing(Readable);
    assert Discovered(EMPTY.definitions) - {task.name} == map[];
  }

  lemma OneTaskDecides(task: Task)
    ensures TriggersWanted(map[task.name := task]) <==> Qualifies(task)
  {
    assert map[task.name := task][task.name] == task;
  }

  /**
   * A qualifying task that can be printed but not read back, as the only one: the catch-up files
   * come with it, and the next command on any other task deletes them, while the task's own
   * files and its definition stay.
   */
  lemma UnreadableTaskLosesCatchup(c: Setting, task: Task, other: Task, a: Answers)
    requires Installable(task) && Definition.PrintableTask(task) && !Definition.CleanTask(task) && Qualifies(task)
    requires Installable(other) && !Qualifies(other) && other.name != task.name && a.deactivate
    ensures var first := Installed(c, EMPTY, task, false, a);
      var second := Installed(c, first, other, false, a);
      && (forall f | f in CatchupNames(c.backend) :: f in first.files && f !in second.files)
      && (forall f | f in DesiredTaskFiles(c, task) :: f in second.files)
      && task.name in second.definitions
  {
    var first := Installed(c, EMPTY, task, false, a);
    DiscoverNothing(Readable);
    UnreadableIsNotDiscovered(c, task, a);
    OneTaskDecides(task);
    OneTaskDecides(other);
    CatchupComesAndGoes(c, task, other, Post(EMPTY, task), Post(first, other));
    InstallTakesEffect(c, EMPTY, task, a, task.name);
    InstallTakesEffect(c, EMPTY, task, a, other.name);
    InstallTakesEffect(c, first, other, a, task.name);
  }

  lemma InstallTakesEffect(c: Setting, disk: Disk, task: Task, a: Answers, name: string)
    requires task.name !in disk.definitions && a.deactivate
    ensures var disk' := Installed(c, disk, task, false, a);
      && disk'.files == Reconciled(disk.files, InstallDesired(c, disk, task), Scope(c, task.name))
      && (name in disk.definitions || (name == task.name && Definition.PrintableTask(task)) ==>
            name in disk'.definitions)
      && (name in disk'.definitions ==> name in disk.definitions || name == task.name)
  {}

  // ---- The commands as they work on the directory ----

  datatype Outcome = Done | Failed

  class Installation {
    const c: Setting
    var files: map<string, string>
    var definitions: map<string, string>

    function Value(): Disk
      reads this
    {
      Disk(files, definitions)
    }

    constructor (c: Setting)
      ensures this.c == c && Value() == EMPTY
    {
      this.c, files, definitions := c, map[], map[];
    }

    method Plan(desired: map<string, string>, scope: set<string>) returns (plan: seq<Change>)
      ensures PlansFor(plan, files, desired, scope + desired.Keys)
    {
      plan := [];
      var names := scope + desired.Keys;
      var todo := names;
      while todo != {}
        invariant todo <= names
        invariant PlansFor(plan, files, desired, names - todo)
        decreases |todo|
      {
        var name :| name in todo;
        if name !in desired {
          if name in files {
            plan := plan + [Change(Delete, name)];
          }
        } else if name !in files {
          plan := plan + [Change(Create, name)];
        } else if files[name] != desired[name] {
          plan := plan + [Change(Update, name)];
        } else {
          plan := plan + [Change(Unchanged, name)];
        }
        todo := todo - {name};
      }
      assert names - todo == names;
    }

    /** Deactivate and delete what is no longer wanted, then write what is new or changed. */
    method Apply(plan: seq<Change>, desired: map<string, string>, ghost names: set<string>, obeyed: bool)
      returns (ok: bool)
      requires desired.Keys <= names && PlansFor(plan, files, desired, names)
      modifies `files
      ensures ok == !(Removes(old(files), desired, names) && !obeyed)
      ensures files == if ok then Reconciled(old(files), desired, names) else old(files)
    {
      PlanReconciles(plan, files, desired, names);
      var removals := Removals(plan, desired, names);
      if removals != {} && !obeyed {
        return false;
      }
      Unlink(removals);
      Write(plan, desired);
      return true;
    }

    method Removals(plan: seq<Change>, desired: map<string, string>, ghost names: set<string>)
      returns (removals: set<string>)
      requires PlansFor(plan, files, desired, names)
      ensures removals == Surplus(files, desired, names)
    {
      removals := {};
      for i := 0 to |plan|
        invariant removals == set j | 0 <= j < i && plan[j].action.Delete? :: plan[j].name
      {
        if plan[i].action.Delete? {
          removals := removals + {plan[i].name};
        }
      }
      forall n | n in names && n in files && n !in desired ensures n in removals {
        assert ChangeFor(files, desired, n).value in plan;
      }
    }

    method Unlink(names: set<string>)
      modifies `files
      ensures files == old(files) - names
    {
      var todo := names;
      while todo != {}
        invariant todo <= names && files == old(files) - (names - todo)
        decreases |todo|
      {
        var name :| name in todo;
        todo := todo - {name};
        files := files - {name};
      }
    }

    method Write(plan: seq<Change>, desired: map<string, string>)
      requires forall i | 0 <= i < |plan| && Writes(plan[i]) :: plan[i].name in desired
      modifies `files
      ensures files == AfterWrites(old(files), plan, desired)
    {
      for i := 0 to |plan|
        invariant files == AfterWrites(old(files), plan[..i], desired)
      {
        if Writes(plan[i]) {
          files := files[plan[i].name := desired[plan[i].name]];
        }
        assert plan[..i + 1][..i] == plan[..i];
      }
      assert plan[..|plan|] == plan;
    }

    /** Bring the files in scope of one name to what is desired, unless a deactivation is refused. */
    method Reconcile(name: string, desired: map<string, string>, a: Answers) returns (ok: bool)
      requires desired.Keys <= Scope(c, name)
      modifies `files
      ensures ok == Applies(c, old(Value()), name, desired, a)
      ensures files == if ok then Reconciled(old(files), desired, Scope(c, name)) else old(files)
    {
      var plan := Plan(desired, Scope(c, name));
      assert Scope(c, name) + desired.Keys == Scope(c, name);
      ok := Apply(plan, desired, Scope(c, name), a.deactivate);
    }

    /** Write the definition of a task, or fail before anything is written. */
    method WriteInstalled(task: Task) returns (ok: bool)
      modifies `definitions
      ensures ok == Definition.Dump(task).Ok?
      ensures definitions ==
        if ok then old(definitions)[task.name := Definition.Dump(task).value] else old(definitions)
    {
      var text := DefinitionPrinter.DumpTask(task);
      if text.Err? {
        return false;
      }
      definitions := definitions[task.name := text.value];
      return true;
    }

    method Install(task: Task, replaceExisting: bool, dryRun: bool, a: Answers) returns (outcome: Outcome)
      requires ValidName(task.name)
      modifies this
      ensures Value() == if dryRun then old(Value()) else Installed(c, old(Value()), task, replaceExisting, a)
      ensures task.name in old(definitions) && !replaceExisting ==> outcome == Failed
      ensures dryRun ==> (outcome == Done <==> task.name !in old(definitions) || replaceExisting)
      ensures !dryRun ==> (outcome == Done <==>
        TakesEffect(c, old(Value()), task, replaceExisting, a) && Definition.Dump(task).Ok?
        && a.reload && a.activate && a.catchup)
    {
      if task.name in definitions && !replaceExisting {
        return Failed;
      }
      if dryRun {
        return Done;
      }
      var installed := DiscoverAll(Readable, definitions);
      var post := installed[task.name := task];
      var desired := DesiredTaskFiles(c, task) + CatchupDesired(c, post);
      var applied := Reconcile(task.name, desired, a);
      if !applied {
        return Failed;
      }
      var written := WriteInstalled(task);
      if !written {
        return Failed;
      }
      if !a.reload || !a.activate || !a.catchup {
        return Failed;
      }
      return Done;
    }

    method RemoveTask(name: string, a: Answers) returns (outcome: Outcome)
      modifies this
      ensures Value() == if ValidName(name) then Removed(c, old(Value()), name, a) else old(Value())
      ensures outcome == Done <==>
        ValidName(name) && Applies(c, old(Value()), name, RemoveDesired(c, old(Value()), name), a)
        && a.reload && a.catchup
      ensures outcome == Done ==> definitions == old(definitions) - {name}
    {
      if !ValidName(name) {
        return Failed;
      }
      var installed := DiscoverAll(Readable, definitions);
      var desired := CatchupDesired(c, installed - {name});
      var applied := Reconcile(name, desired, a);
      if !applied {
        return Failed;
      }
      definitions := definitions - {name};
      if !a.reload || !a.catchup {
        return Failed;
      }
      return Done;
    }
  }
}
