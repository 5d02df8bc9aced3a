/**
 * Unit files: what tasks want on disk, plans that reconcile a directory with it, and when the
 * files match the tasks.
 */
module UnitFiles {
  import opened Common
  import opened Text
  import opened TaskSpec
  import opened Catchup

  // ---- Names ----

  datatype Backend = Systemd | Launchd

  function ServiceName(name: string): string {
    "automationctl-" + name + ".service"
  }

  function TimerName(name: string): string {
    "automationctl-" + name + ".timer"
  }

  function PlistName(name: string): string {
    "automationctl." + name + ".plist"
  }

  /** Every file the backend can have written for a task of this name. */
  function PossibleFiles(b: Backend, name: string): set<string> {
    match b
    case Systemd => {ServiceName(name), TimerName(name)}
    case Launchd => {PlistName(name)}
  }

  function CatchupNames(b: Backend): set<string> {
    PossibleFiles(b, "catchup")
  }

  // ---- What should be on disk ----

  /** The texts a backend renders; what is proved holds whatever they are. */
  datatype Texts = Texts(
    service: Task -> string, timer: Task -> string, agent: Task -> string,
    catchupService: string, catchupTimer: string, catchupAgent: string)

  datatype Setting = Setting(backend: Backend, texts: Texts)

  function DesiredTaskFiles(c: Setting, task: Task): (files: map<string, string>)
    ensures files.Keys <= PossibleFiles(c.backend, task.name)
  {
    match c.backend
    case Systemd =>
      var service := map[ServiceName(task.name) := c.texts.service(task)];
      if task.schedule.None? then service else service[TimerName(task.name) := c.texts.timer(task)]
    case Launchd => map[PlistName(task.name) := c.texts.agent(task)]
  }

  function CatchupFiles(c: Setting): (files: map<string, string>)
    ensures files.Keys == CatchupNames(c.backend)
  {
    match c.backend
    case Systemd => map[ServiceName("catchup") := c.texts.catchupService, TimerName("catchup") := c.texts.catchupTimer]
    case Launchd => map[PlistName("catchup") := c.texts.catchupAgent]
  }

  function CatchupDesired(c: Setting, tasks: map<string, Task>): map<string, string> {
    if TriggersWanted(tasks) then CatchupFiles(c) else map[]
  }

  /** systemd: always a service, a timer exactly for a task with a schedule, nothing else. */
  lemma SystemdFiles(c: Setting, task: Task)
    requires c.backend.Systemd?
    ensures var files := DesiredTaskFiles(c, task);
      && ServiceName(task.name) in files && files[ServiceName(task.name)] == c.texts.service(task)
      && (TimerName(task.name) in files <==> task.schedule.Some?)
      && (task.schedule.Some? ==> files[TimerName(task.name)] == c.texts.timer(task))
      && files.Keys <= {ServiceName(task.name), TimerName(task.name)}
  {
    ServiceIsNoTimer(task.name, task.name);
  }

  /** launchd: exactly one plist. */
  lemma LaunchdFiles(c: Setting, task: Task)
    requires c.backend.Launchd?
    ensures DesiredTaskFiles(c, task) == map[PlistName(task.name) := c.texts.agent(task)]
  {}

  /** The catch-up files, each with its own text. */
  lemma CatchupTexts(c: Setting)
    ensures c.backend.Systemd? ==>
      CatchupFiles(c) == map["automationctl-catchup.service" := c.texts.catchupService,
                             "automationctl-catchup.timer" := c.texts.catchupTimer]
    ensures c.backend.Launchd? ==> CatchupFiles(c) == map["automationctl.catchup.plist" := c.texts.catchupAgent]
  {
    assert ServiceName("catchup") == "automationctl-catchup.service";
    assert TimerName("catchup") == "automationctl-catchup.timer";
    assert PlistName("catchup") == "automationctl.catchup.plist";
  }

  /** A task the catch-up trigger exists for, by its fields. */
  predicate CatchesUp(task: Task) {
    && task.schedule.Some? && !task.disabled
    && (task.schedule.value.kind.Daily? || task.schedule.value.kind.Weekly? || task.schedule.value.kind.Monthly?)
    && task.persistent != Some(false)
  }

  /** The catch-up files are wanted, all of them, exactly while such a task is installed. */
  lemma CatchupIsWanted(c: Setting, tasks: map<string, Task>)
    ensures CatchupDesired(c, tasks) ==
      if exists name | name in tasks :: CatchesUp(tasks[name]) then CatchupFiles(c) else map[]
  {
    forall name | name in tasks ensures Qualifies(tasks[name]) <==> CatchesUp(tasks[name]) {}
  }

  // ---- Plans ----

  datatype Action = Create | Update | Delete | Unchanged

  datatype Change = Change(action: Action, name: string)

  /** What a plan has to say about one name, if anything. */
  function ChangeFor(files: map<string, string>, desired: map<string, string>, name: string): Option<Change> {
    if name !in desired then (if name in files then Some(Change(Delete, name)) else None)
    else if name !in files then Some(Change(Create, name))
    else if files[name] != desired[name] then Some(Change(Update, name))
    else Some(Change(Unchanged, name))
  }

  /** What each action means for the file it names. */
  lemma ChangesMean(files: map<string, string>, desired: map<string, string>, name: string, change: Change)
    requires ChangeFor(files, desired, name) == Some(change)
    ensures change.name == name
    ensures change.action.Create? <==> name !in files && name in desired
    ensures change.action.Delete? <==> name in files && name !in desired
    ensures change.action.Update? <==> name in files && name in desired && files[name] != desired[name]
    ensures change.action.Unchanged? <==> name in files && name in desired && files[name] == desired[name]
  {}

  predicate PlansFor(plan: seq<Change>, files: map<string, string>, desired: map<string, string>, names: set<string>) {
    && (forall i | 0 <= i < |plan| :: plan[i].name in names && ChangeFor(files, desired, plan[i].name) == Some(plan[i]))
    && (forall n | n in names && ChangeFor(files, desired, n).Some? :: ChangeFor(files, desired, n).value in plan)
  }

  /** The names in scope end up exactly as desired; all other files stay. */
  function Reconciled(files: map<string, string>, desired: map<string, string>, names: set<string>): map<string, string>
  {
    (files - names) + desired
  }

  predicate Removes(files: map<string, string>, desired: map<string, string>, names: set<string>) {
    exists n | n in names :: n in files && n !in desired
  }

  function Scope(c: Setting, name: string): set<string> {
    PossibleFiles(c.backend, name) + CatchupNames(c.backend)
  }

  lemma EveryTaskWantsFiles(c: Setting, task: Task)
    ensures DesiredTaskFiles(c, task) != map[]
  {
    assert ServiceName(task.name) in DesiredTaskFiles(c, task) || PlistName(task.name) in DesiredTaskFiles(c, task);
  }

  // ---- Discovering the installed tasks ----

  /** What some way of reading makes of the definitions; those it cannot read are passed over. */
  function Discover(read: (string, string) -> Option<Task>, definitions: map<string, string>): map<string, Task> {
    map name | name in definitions && read(name, definitions[name]).Some? :: read(name, definitions[name]).value
  }

  lemma DiscoverWithout(read: (string, string) -> Option<Task>, definitions: map<string, string>, name: string)
    ensures Discover(read, definitions - {name}) == Discover(read, definitions) - {name}
  {}

  lemma DiscoverWith(read: (string, string) -> Option<Task>, definitions: map<string, string>,
                     name: string, text: string)
    ensures Discover(read, definitions[name := text]) ==
      match read(name, text)
      case None => Discover(read, definitions) - {name}
      case Some(task) => Discover(read, definitions)[name := task]
  {}

  lemma DiscoverNothing(read: (string, string) -> Option<Task>)
    ensures Discover(read, map[]) == map[]
  {}

  /** Read every definition, one after the other. */
  method DiscoverAll(read: (string, string) -> Option<Task>, definitions: map<string, string>)
    returns (tasks: map<string, Task>)
    ensures tasks == Discover(read, definitions)
  {
    tasks := map[];
    var todo := definitions.Keys;
    while todo != {}
      invariant todo <= definitions.Keys
      invariant forall name | name in tasks ::
        name in definitions && name !in todo && read(name, definitions[name]) == Some(tasks[name])
      invariant forall name | name in definitions && name !in todo ::
        read(name, definitions[name]).Some? ==> name in tasks
      decreases |todo|
    {
      var name :| name in todo;
      todo := todo - {name};
      var task := read(name, definitions[name]);
      if task.Some? {
        tasks := tasks[name := task.value];
      }
    }
  }

  // ---- Files that match the tasks ----

  predicate SameAt(files: map<string, string>, wanted: map<string, string>, f: string) {
    (f in files <==> f in wanted) && (f in wanted ==> files[f] == wanted[f])
  }

  predicate TaskFilesRight(c: Setting, files: map<string, string>, installed: map<string, Task>, name: string) {
    var wanted := if name in installed then DesiredTaskFiles(c, installed[name]) else map[];
    forall f | f in PossibleFiles(c.backend, name) :: SameAt(files, wanted, f)
  }

  predicate CatchupFilesRight(c: Setting, files: map<string, string>, installed: map<string, Task>) {
    forall f | f in CatchupNames(c.backend) :: SameAt(files, CatchupDesired(c, installed), f)
  }

  /** The managed files are exactly those that these tasks want. */
  ghost predicate FilesMatch(c: Setting, files: map<string, string>, installed: map<string, Task>) {
    && (forall name | ValidName(name) :: TaskFilesRight(c, files, installed, name))
    && CatchupFilesRight(c, files, installed)
  }

  /** What is on disk for an installed task: its service, and a timer exactly if it is scheduled; or its plist. */
  ghost predicate HasItsFiles(c: Setting, files: map<string, string>, task: Task) {
    match c.backend
    case Systemd =>
      && SameAt(files, map[ServiceName(task.name) := c.texts.service(task)], ServiceName(task.name))
      && (TimerName(task.name) in files <==> task.schedule.Some?)
      && (task.schedule.Some? ==> files[TimerName(task.name)] == c.texts.timer(task))
    case Launchd => SameAt(files, map[PlistName(task.name) := c.texts.agent(task)], PlistName(task.name))
  }

  lemma RightMeansFiles(c: Setting, files: map<string, string>, installed: map<string, Task>, name: string)
    requires TaskFilesRight(c, files, installed, name) && name in installed && installed[name].name == name
    ensures HasItsFiles(c, files, installed[name])
  {
    var wanted := DesiredTaskFiles(c, installed[name]);
    match c.backend
    case Systemd =>
      SystemdFiles(c, installed[name]);
      assert SameAt(files, wanted, ServiceName(name)) && SameAt(files, wanted, TimerName(name));
    case Launchd =>
      LaunchdFiles(c, installed[name]);
      assert SameAt(files, wanted, PlistName(name));
  }

  /** Two names never share a file. */
  lemma FilesOfNamesDisjoint(b: Backend, n: string, m: string)
    requires n != m
    ensures PossibleFiles(b, n) !! PossibleFiles(b, m)
  {
    if ServiceName(n) == ServiceName(m) {
      Wrapped("automationctl-", n, m, ".service");
    }
    if TimerName(n) == TimerName(m) {
      Wrapped("automationctl-", n, m, ".timer");
    }
    if PlistName(n) == PlistName(m) {
      Wrapped("automationctl.", n, m, ".plist");
    }
    ServiceIsNoTimer(n, m);
    ServiceIsNoTimer(m, n);
  }

  lemma ServiceIsNoTimer(n: string, m: string)
    ensures ServiceName(n) != TimerName(m)
  {
    var s, t := ServiceName(n), TimerName(m);
    assert s[|s| - 1] == 'e' && t[|t| - 1] == 'r';
  }

  /** Reconciling the files of one name leaves the files of every other name alone. */
  lemma OthersUntouched(c: Setting, files: map<string, string>, desired: map<string, string>, name: string,
                        other: string, f: string)
    requires desired.Keys <= Scope(c, name)
    requires other != name && other != "catchup" && f in PossibleFiles(c.backend, other)
    ensures SameAt(Reconciled(files, desired, Scope(c, name)), files, f)
  {
    FilesOfNamesDisjoint(c.backend, name, other);
    FilesOfNamesDisjoint(c.backend, "catchup", other);
  }

  lemma OthersStayRight(c: Setting, files: map<string, string>, desired: map<string, string>, name: string,
                        before: map<string, Task>, after: map<string, Task>, other: string)
    requires TaskFilesRight(c, files, before, other) && ValidName(other) && other != name
    requires desired.Keys <= Scope(c, name)
    requires other in after <==> other in before
    requires other in after ==> after[other] == before[other]
    ensures TaskFilesRight(c, Reconciled(files, desired, Scope(c, name)), after, other)
  {
    forall f | f in PossibleFiles(c.backend, other)
      ensures SameAt(Reconciled(files, desired, Scope(c, name)), files, f)
    {
      OthersUntouched(c, files, desired, name, other, f);
    }
  }

  /** The catch-up files and the task's own files never overlap, so each gets what it wants. */
  lemma TargetIsRight(c: Setting, files: map<string, string>, name: string, own: map<string, string>,
                      catchup: map<string, string>)
    requires name != "catchup" && own.Keys <= PossibleFiles(c.backend, name) && catchup.Keys <= CatchupNames(c.backend)
    ensures var after := Reconciled(files, own + catchup, Scope(c, name));
      && (forall f | f in PossibleFiles(c.backend, name) :: SameAt(after, own, f))
      && (forall f | f in CatchupNames(c.backend) :: SameAt(after, catchup, f))
  {
    FilesOfNamesDisjoint(c.backend, name, "catchup");
  }

  predicate SameBut(before: map<string, Task>, after: map<string, Task>, name: string) {
    before - {name} == after - {name}
  }

  /** When a command changes one name only, the files match what is then installed if they do there. */
  lemma CommandMatches(c: Setting, files: map<string, string>, name: string, own: map<string, string>,
                       wanted: map<string, Task>, before: map<string, Task>, after: map<string, Task>)
    requires FilesMatch(c, files, before) && ValidName(name) && own.Keys <= PossibleFiles(c.backend, name)
    requires SameBut(before, after, name) && (name in after ==> after[name].name == name)
    ensures var left := Reconciled(files, own + CatchupDesired(c, wanted), Scope(c, name));
      FilesMatch(c, left, after) <==>
        && own == (if name in after then DesiredTaskFiles(c, after[name]) else map[])
        && CatchupDesired(c, wanted) == CatchupDesired(c, after)
  {
    var desired := own + CatchupDesired(c, wanted);
    var left := Reconciled(files, desired, Scope(c, name));
    TargetIsRight(c, files, name, own, CatchupDesired(c, wanted));
    forall other | ValidName(other) && other != name ensures TaskFilesRight(c, left, after, other) {
      SameElsewhere(before, after, name, other);
      OthersStayRight(c, files, desired, name, before, after, other);
    }
    OwnFilesMatch(c, left, name, own, after);
    CatchupFilesMatch(c, left, CatchupDesired(c, wanted), after);
  }

  lemma SameElsewhere(before: map<string, Task>, after: map<string, Task>, name: string, other: string)
    requires SameBut(before, after, name) && other != name
    ensures other in before <==> other in after
    ensures other in after ==> after[other] == before[other]
  {
    assert other in before <==> other in before - {name};
    assert other in after <==> other in after - {name};
    if other in after {
      assert after[other] == (after - {name})[other] == (before - {name})[other];
    }
  }

  lemma OwnFilesMatch(c: Setting, files: map<string, string>, name: string, own: map<string, string>,
                      installed: map<string, Task>)
    requires own.Keys <= PossibleFiles(c.backend, name)
    requires name in installed ==> installed[name].name == name
    requires forall f | f in PossibleFiles(c.backend, name) :: SameAt(files, own, f)
    ensures TaskFilesRight(c, files, installed, name) <==>
      own == if name in installed then DesiredTaskFiles(c, installed[name]) else map[]
  {
    var wanted := if name in installed then DesiredTaskFiles(c, installed[name]) else map[];
    if TaskFilesRight(c, files, installed, name) {
      SameWithin(files, own, wanted, PossibleFiles(c.backend, name));
    }
  }

  lemma CatchupFilesMatch(c: Setting, files: map<string, string>, catchup: map<string, string>,
                          installed: map<string, Task>)
    requires catchup.Keys <= CatchupNames(c.backend)
    requires forall f | f in CatchupNames(c.backend) :: SameAt(files, catchup, f)
    ensures CatchupFilesRight(c, files, installed) <==> catchup == CatchupDesired(c, installed)
  {
    if CatchupFilesRight(c, files, installed) {
      SameWithin(files, catchup, CatchupDesired(c, installed), CatchupNames(c.backend));
    }
  }

  lemma SameWithin(files: map<string, string>, a: map<string, string>, b: map<string, string>, names: set<string>)
    requires a.Keys <= names && b.Keys <= names
    requires forall f | f in names :: SameAt(files, a, f) && SameAt(files, b, f)
    ensures a == b
  {
    forall f | f in a ensures f in b && a[f] == b[f] {
      assert SameAt(files, a, f) && SameAt(files, b, f);
    }
    forall f | f in b ensures f in a {
      assert SameAt(files, a, f) && SameAt(files, b, f);
    }
  }

  lemma InstallMatches(c: Setting, files: map<string, string>, task: Task, before: map<string, Task>,
                       after: map<string, Task>)
    requires FilesMatch(c, files, before) && ValidName(task.name)
    requires after == before[task.name := task] || after == before - {task.name} || after == before
    requires task.name in before ==> before[task.name].name == task.name
    ensures var post := before[task.name := task];
      FilesMatch(c, Reconciled(files, DesiredTaskFiles(c, task) + CatchupDesired(c, post), Scope(c, task.name)),
                 after) <==>
        && DesiredTaskFiles(c, task) == (if task.name in after then DesiredTaskFiles(c, after[task.name]) else map[])
        && CatchupDesired(c, post) == CatchupDesired(c, after)
  {
    CommandMatches(c, files, task.name, DesiredTaskFiles(c, task), before[task.name := task], before, after);
  }

  /** On any files, what a command on one name leaves right. */
  lemma CommandPutsRight(c: Setting, files: map<string, string>, name: string, own: map<string, string>,
                         wanted: map<string, Task>, after: map<string, Task>)
    requires ValidName(name) && own.Keys <= PossibleFiles(c.backend, name)
    requires name in after ==> after[name].name == name
    ensures var left := Reconciled(files, own + CatchupDesired(c, wanted), Scope(c, name));
      && (TaskFilesRight(c, left, after, name) <==>
            own == if name in after then DesiredTaskFiles(c, after[name]) else map[])
      && (CatchupFilesRight(c, left, after) <==> CatchupDesired(c, wanted) == CatchupDesired(c, after))
  {
    var left := Reconciled(files, own + CatchupDesired(c, wanted), Scope(c, name));
    TargetIsRight(c, files, name, own, CatchupDesired(c, wanted));
    OwnFilesMatch(c, left, name, own, after);
    CatchupFilesMatch(c, left, CatchupDesired(c, wanted), after);
  }

  lemma SamePost(before: map<string, Task>, after: map<string, Task>, task: Task)
    requires after == before[task.name := task] || after == before - {task.name} || after == before
    ensures after[task.name := task] == before[task.name := task]
  {}

  lemma RemoveMatches(c: Setting, files: map<string, string>, name: string, before: map<string, Task>)
    requires FilesMatch(c, files, before) && ValidName(name)
    ensures FilesMatch(c, Reconciled(files, CatchupDesired(c, before - {name}), Scope(c, name)), before - {name})
  {
    var catchup := CatchupDesired(c, before - {name});
    assert map[] + catchup == catchup;
    CommandMatches(c, files, name, map[], before - {name}, before, before - {name});
  }

  /** Planning what has just been reconciled finds nothing to change. */
  lemma ReconciledIsStable(files: map<string, string>, desired: map<string, string>, names: set<string>, name: string)
    requires name in names
    ensures var change := ChangeFor(Reconciled(files, desired, names), desired, name);
      change == None || change == Some(Change(Unchanged, name))
  {}

  /** The files of a command that wants the catch-up files and then of one, on another name, that does not. */
  lemma CatchupComesAndGoes(c: Setting, task: Task, other: Task, post: map<string, Task>, later: map<string, Task>)
    requires TriggersWanted(post) && !TriggersWanted(later)
    requires ValidName(task.name) && ValidName(other.name) && other.name != task.name
    ensures var first := Reconciled(map[], DesiredTaskFiles(c, task) + CatchupDesired(c, post), Scope(c, task.name));
      var desired := DesiredTaskFiles(c, other) + CatchupDesired(c, later);
      var second := Reconciled(first, desired, Scope(c, other.name));
      && (forall f | f in CatchupNames(c.backend) :: f in first && f !in second)
      && (forall f | f in DesiredTaskFiles(c, task) :: f in second)
  {
    var first := Reconciled(map[], DesiredTaskFiles(c, task) + CatchupDesired(c, post), Scope(c, task.name));
    TargetIsRight(c, map[], task.name, DesiredTaskFiles(c, task), CatchupDesired(c, post));
    TargetIsRight(c, first, other.name, DesiredTaskFiles(c, other), CatchupDesired(c, later));
    forall f | f in CatchupNames(c.backend)
      ensures var desired := DesiredTaskFiles(c, other) + CatchupDesired(c, later);
        f in first && f !in Reconciled(first, desired, Scope(c, other.name))
    {
      assert SameAt(first, CatchupDesired(c, post), f);
    }
    forall f | f in DesiredTaskFiles(c, task)
      ensures f in Reconciled(first, DesiredTaskFiles(c, other) + CatchupDesired(c, later), Scope(c, other.name))
    {
      assert SameAt(first, DesiredTaskFiles(c, task), f);
      OthersUntouched(c, first, DesiredTaskFiles(c, other) + CatchupDesired(c, later), other.name, task.name, f);
    }
  }

  // ---- Carrying out a plan ----

  predicate Writes(change: Change) {
    change.action.Create? || change.action.Update?
  }

  /** The directory after the writes of a plan, one after the other. */
  function AfterWrites(files: map<string, string>, plan: seq<Change>, desired: map<string, string>): map<string, string>
    requires forall i | 0 <= i < |plan| && Writes(plan[i]) :: plan[i].name in desired
  {
    if plan == [] then files
    else
      var n := |plan| - 1;
      var before := AfterWrites(files, plan[..n], desired);
      if Writes(plan[n]) then before[plan[n].name := desired[plan[n].name]] else before
  }

  predicate WrittenBy(plan: seq<Change>, name: string) {
    Change(Create, name) in plan || Change(Update, name) in plan
  }

  lemma {:induction false} AfterWritesAt(files: map<string, string>, plan: seq<Change>,
                                         desired: map<string, string>, name: string)
    requires forall i | 0 <= i < |plan| && Writes(plan[i]) :: plan[i].name in desired
    ensures var after := AfterWrites(files, plan, desired);
      if WrittenBy(plan, name) then name in desired && name in after && after[name] == desired[name]
      else SameAt(after, files, name)
  {
    if plan != [] {
      var n := |plan| - 1;
      AfterWritesAt(files, plan[..n], desired, name);
      assert plan == plan[..n] + [plan[n]];
      assert WrittenBy(plan, name) <==> WrittenBy(plan[..n], name) || (Writes(plan[n]) && plan[n].name == name);
    }
  }

  function Surplus(files: map<string, string>, desired: map<string, string>, names: set<string>): set<string> {
    set n | n in names && n in files && n !in desired
  }

  lemma PlanWrites(plan: seq<Change>, files: map<string, string>, desired: map<string, string>,
                   names: set<string>, name: string)
    requires PlansFor(plan, files, desired, names)
    ensures WrittenBy(plan, name) <==>
      name in names && name in desired && !(name in files && files[name] == desired[name])
  {
    if name in names && ChangeFor(files, desired, name).Some? {
      assert ChangeFor(files, desired, name).value in plan;
    }
  }

  /** Deleting the surplus and carrying out the writes of a plan reconciles the directory. */
  lemma PlanReconciles(plan: seq<Change>, files: map<string, string>, desired: map<string, string>, names: set<string>)
    requires desired.Keys <= names && PlansFor(plan, files, desired, names)
    ensures forall i | 0 <= i < |plan| && Writes(plan[i]) :: plan[i].name in desired
    ensures AfterWrites(files - Surplus(files, desired, names), plan, desired) == Reconciled(files, desired, names)
  {
    var left := files - Surplus(files, desired, names);
    var after := AfterWrites(left, plan, desired);
    forall name ensures SameAt(after, Reconciled(files, desired, names), name) {
      AfterWritesAt(left, plan, desired, name);
      PlanWrites(plan, files, desired, names, name);
    }
    SameEverywhere(after, Reconciled(files, desired, names));
  }

  lemma SameEverywhere(a: map<string, string>, b: map<string, string>)
    requires forall name :: SameAt(a, b, name)
    ensures a == b
  {
    forall name ensures name in a <==> name in b {
      assert SameAt(a, b, name);
    }
    forall name | name in a ensures a[name] == b[name] {
      assert SameAt(a, b, name);
    }
  }
}
