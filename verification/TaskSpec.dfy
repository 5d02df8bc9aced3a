/** One task definition. */
module TaskSpec {
  import opened Common
  import opened Text
  import opened Schedule

  /** Safe names; "catchup" is reserved for the shared artifact. */
  predicate ValidName(name: string) {
    PlainName(name) && name != "catchup"
  }

  predicate Alphanumeric(c: char) {
    '0' <= c <= '9' || 'A' <= c <= 'Z' || 'a' <= c <= 'z'
  }

  /** Names start with a letter or digit, and go on with these, dots, underscores and hyphens. */
  lemma NamesMean(name: string)
    ensures ValidName(name) <==>
      && name != "" && name != "catchup" && Alphanumeric(name[0])
      && forall i | 0 <= i < |name| :: Alphanumeric(name[i]) || name[i] == '.' || name[i] == '_' || name[i] == '-'
  {}

  datatype Transport = Transport(
    name: string, kind: string, urlEnv: Option<string>, command: seq<string>, title: Option<string>)

  datatype Task = Task(
    name: string,
    description: string,
    command: seq<string>,
    stdin: Option<string>,
    stdinFile: Option<string>,
    cwd: Option<string>,
    env: seq<(string, string)>,
    envFiles: seq<string>,
    pathPrepend: seq<string>,
    schedule: Option<Schedule>,
    timeoutSeconds: Option<nat>,
    jitterSeconds: nat,
    persistent: Option<bool>,
    mutex: Option<string>,
    summaryCmd: Option<seq<string>>,
    onFailure: seq<string>,
    onSuccess: seq<string>,
    allowFullAccess: bool,
    disabled: bool,
    notify: seq<Transport>)

  predicate EffectivePersistent(task: Task) {
    match task.persistent
    case Some(p) => p
    case None => task.schedule.Some? && (IsCalendar(task.schedule.value.kind) || task.schedule.value.kind.Raw?)
  }

  /** What is not said follows from the schedule: everything but an interval is caught up. */
  lemma PersistentMeans(task: Task)
    ensures EffectivePersistent(task) <==>
      || task.persistent == Some(true)
      || (task.persistent.None? && task.schedule.Some? && !task.schedule.value.kind.Interval?)
  {}
}
