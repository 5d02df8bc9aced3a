/**
 * Sessions that install tasks which do not survive their own texts: which files can be wrong
 * afterwards, and which commands put them right.
 */
module UnitRepair {
  import opened TaskSpec
  import opened UnitFiles
  import opened UnitDirectory
  import Definition

  /** The files of one name are what the task read back for it wants, or absent if there is none. */
  ghost predicate NameRight(c: Setting, disk: Disk, name: string) {
    TaskFilesRight(c, disk.files, Discovered(disk.definitions), name)
  }

  ghost predicate CatchupRight(c: Setting, disk: Disk) {
    CatchupFilesRight(c, disk.files, Discovered(disk.definitions))
  }

  /**
   * On any disk, an install that takes effect leaves the files of its own name right if and only
   * if the task survives its own text, or cannot be printed and replaces a task that wants the
   * same files; and the catch-up files right if and only if the tasks read back afterwards want
   * what the tasks before, together with this one, wanted.
   */
  lemma InstallPutsRight(c: Setting, disk: Disk, task: Task, replaceExisting: bool, a: Answers)
    requires Installable(task) && TakesEffect(c, disk, task, replaceExisting, a)
    ensures var before, disk' := Discovered(disk.definitions), Installed(c, disk, task, replaceExisting, a);
      && (NameRight(c, disk', task.name) <==>
            || Survives(task)
            || (!Definition.PrintableTask(task) && task.name in before
                && DesiredTaskFiles(c, task) == DesiredTaskFiles(c, before[task.name])))
      && (CatchupRight(c, disk') <==>
            CatchupDesired(c, Post(disk, task)) == CatchupDesired(c, Discovered(disk'.definitions)))
  {
    var before := Discovered(disk.definitions);
    var after := Discovered(Installed(c, disk, task, replaceExisting, a).definitions);
    DiscoveredAfterInstall(c, disk, task, replaceExisting, a);
    if task.name in before {
      DiscoveredHasItsName(disk.definitions, task.name);
    }
    EveryTaskWantsFiles(c, task);
    CommandPutsRight(c, disk.files, task.name, DesiredTaskFiles(c, task), Post(disk, task), after);
  }

  /** So on any disk a surviving install that takes effect puts right its own and the catch-up files. */
  lemma SurvivorPutsRight(c: Setting, disk: Disk, task: Task, replaceExisting: bool, a: Answers)
    requires Installable(task) && Survives(task) && TakesEffect(c, disk, task, replaceExisting, a)
    ensures var disk' := Installed(c, disk, task, replaceExisting, a);
      NameRight(c, disk', task.name) && CatchupRight(c, disk')
  {
    InstallPutsRight(c, disk, task, replaceExisting, a);
    DiscoveredAfterInstall(c, disk, task, replaceExisting, a);
  }

  lemma NothingOfItsOwn(catchup: map<string, string>)
    ensures map[] + catchup == catchup
  {}

  /** And so does any removal that is not refused. */
  lemma RemovalPutsRight(c: Setting, disk: Disk, name: string, a: Answers)
    requires ValidName(name) && Applies(c, disk, name, RemoveDesired(c, disk, name), a)
    ensures var disk' := Removed(c, disk, name, a); NameRight(c, disk', name) && CatchupRight(c, disk')
  {
    var after := Discovered(disk.definitions) - {name};
    DiscoverWithout(Readable, disk.definitions, name);
    NothingOfItsOwn(CatchupDesired(c, after));
    CommandPutsRight(c, disk.files, name, map[], after, after);
  }

  lemma OtherDefinitionsStay(c: Setting, disk: Disk, cmd: Command, a: Answers, other: string)
    requires cmd.Install? ==> Installable(cmd.task)
    requires other != Target(cmd)
    ensures var before, after := Discovered(disk.definitions), Discovered(Perform(c, disk, cmd, a).definitions);
      (other in after <==> other in before) && (other in after ==> after[other] == before[other])
  {
    match cmd
    case Install(task, replaceExisting) =>
      if TakesEffect(c, disk, task, replaceExisting, a) {
        DiscoveredAfterInstall(c, disk, task, replaceExisting, a);
      }
    case Remove(name) => DiscoverWithout(Readable, disk.definitions, name);
  }

  /** What a command does to other names' files: nothing, so they stay right, or wrong. */
  lemma OthersStay(c: Setting, disk: Disk, cmd: Command, a: Answers, other: string)
    requires cmd.Install? ==> Installable(cmd.task)
    requires ValidName(other) && other != Target(cmd)
    ensures NameRight(c, Perform(c, disk, cmd, a), other) <==> NameRight(c, disk, other)
  {
    OtherDefinitionsStay(c, disk, cmd, a, other);
    forall f | f in PossibleFiles(c.backend, other)
      ensures SameAt(Perform(c, disk, cmd, a).files, disk.files, f)
    {
      CommandsAreIsolated(c, disk, cmd, a, other, f);
    }
  }

  /** An install of this name whose task does not survive its own text. */
  predicate Loses(cmd: Command, name: string) {
    cmd.Install? && cmd.task.name == name && !Survives(cmd.task)
  }

  lemma PerformKeepsName(c: Setting, disk: Disk, cmd: Command, a: Answers, name: string)
    requires cmd.Install? ==> Installable(cmd.task)
    requires ValidName(name) && NameRight(c, disk, name) && !Loses(cmd, name)
    ensures NameRight(c, Perform(c, disk, cmd, a), name)
  {
    if Target(cmd) != name {
      OthersStay(c, disk, cmd, a, name);
    } else {
      match cmd
      case Install(task, replaceExisting) =>
        if TakesEffect(c, disk, task, replaceExisting, a) {
          SurvivorPutsRight(c, disk, task, replaceExisting, a);
        }
      case Remove(_) =>
        if Applies(c, disk, name, RemoveDesired(c, disk, name), a) {
          RemovalPutsRight(c, disk, name, a);
        }
    }
  }

  /** After any session, only files of names that a command lost, and the catch-up files, can be wrong. */
  lemma {:induction false} OnlyLostNamesGoWrong(c: Setting, disk: Disk, cmds: seq<(Command, Answers)>, name: string)
    requires forall i | 0 <= i < |cmds| :: cmds[i].0.Install? ==> Installable(cmds[i].0.task)
    requires ValidName(name) && NameRight(c, disk, name)
    requires forall i | 0 <= i < |cmds| :: !Loses(cmds[i].0, name)
    ensures NameRight(c, Session(c, disk, cmds), name)
    decreases |cmds|
  {
    if cmds != [] {
      PerformKeepsName(c, disk, cmds[0].0, cmds[0].1, name);
      OnlyLostNamesGoWrong(c, Perform(c, disk, cmds[0].0, cmds[0].1), cmds[1..], name);
    }
  }

  /** Removing names one after the other, with every deactivation obeyed. */
  function RemoveAll(c: Setting, disk: Disk, names: seq<string>, a: Answers): Disk
    decreases |names|
  {
    if names == [] then disk else RemoveAll(c, Removed(c, disk, names[0], a), names[1..], a)
  }

  lemma {:induction false} RemovalsRepair(c: Setting, disk: Disk, names: seq<string>, a: Answers)
    requires a.deactivate && names != [] && forall i | 0 <= i < |names| :: ValidName(names[i])
    requires forall name | ValidName(name) && name !in names :: NameRight(c, disk, name)
    ensures Consistent(c, RemoveAll(c, disk, names, a))
    decreases |names|
  {
    var disk' := Removed(c, disk, names[0], a);
    RemovalPutsRight(c, disk, names[0], a);
    forall name | ValidName(name) && name !in names[1..] ensures NameRight(c, disk', name) {
      if name != names[0] {
        assert name !in names;
        OthersStay(c, disk, Remove(names[0]), a, name);
      }
    }
    if |names| > 1 {
      RemovalsRepair(c, disk', names[1..], a);
    }
  }

  /**
   * Whatever a session installs, removing every name that it lost, in any order and with every
   * deactivation obeyed, brings the invariant back.
   */
  lemma LostNamesCanBeRemoved(c: Setting, disk: Disk, cmds: seq<(Command, Answers)>, names: seq<string>, a: Answers)
    requires Consistent(c, disk) && a.deactivate && names != []
    requires forall i | 0 <= i < |cmds| :: cmds[i].0.Install? ==> Installable(cmds[i].0.task)
    requires forall i | 0 <= i < |names| :: ValidName(names[i])
    requires forall i, name | 0 <= i < |cmds| && Loses(cmds[i].0, name) :: name in names
    ensures Consistent(c, RemoveAll(c, Session(c, disk, cmds), names, a))
  {
    forall name | ValidName(name) && name !in names ensures NameRight(c, Session(c, disk, cmds), name) {
      OnlyLostNamesGoWrong(c, disk, cmds, name);
    }
    RemovalsRepair(c, Session(c, disk, cmds), names, a);
  }
}
