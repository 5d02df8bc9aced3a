/** Task definitions: what the reader accepts, what the printer writes, and that they agree. */
module Definition {
  import opened Common
  import opened Text
  import opened TomlValue
  import opened TomlDocument
  import opened Schedule
  import opened ScheduleText
  import opened TaskSpec
  import Duration
  import TomlText

  // ---- Fields ----

  /** The fields of a definition, in the order in which they are printed. */
  datatype Key =
    | SchemaVersion | Name | Description | Command | Stdin | Cwd | Env | EnvFiles | PathPrepend | When
    | Timeout | Jitter | Persistent | Mutex | SummaryCmd | OnFailure | OnSuccess | AllowFullAccess | Disabled
    | Notify | StdinFile

  function KeyText(k: Key): string {
    match k
    case SchemaVersion => "schema_version"
    case Name => "name"
    case Description => "description"
    case Command => "command"
    case Stdin => "stdin"
    case Cwd => "cwd"
    case Env => "env"
    case EnvFiles => "env_files"
    case PathPrepend => "path_prepend"
    case When => "schedule"
    case Timeout => "timeout"
    case Jitter => "jitter"
    case Persistent => "persistent"
    case Mutex => "lock"
    case SummaryCmd => "summary_cmd"
    case OnFailure => "on_failure"
    case OnSuccess => "on_success"
    case AllowFullAccess => "allow_full_access"
    case Disabled => "disabled"
    case Notify => "notify"
    case StdinFile => "stdin_file"
  }

  const PRINTED := [
    SchemaVersion, Name, Description, Command, Stdin, Cwd, Env, EnvFiles, PathPrepend, When,
    Timeout, Jitter, Persistent, Mutex, SummaryCmd, OnFailure, OnSuccess, AllowFullAccess, Disabled]

  function Lookup(data: seq<Entry>, key: string): Option<Value> {
    if data == [] then None else if data[0].key == key then Some(data[0].value) else Lookup(data[1..], key)
  }

  // ---- Reading typed fields ----

  function StringOf(data: seq<Entry>, key: string): Result<Option<string>> {
    match Lookup(data, key)
    case None => Ok(None)
    case Some(v) => if v.Text? then Ok(Some(v.text)) else Err
  }

  function FlagOf(data: seq<Entry>, key: string): Result<Option<bool>> {
    match Lookup(data, key)
    case None => Ok(None)
    case Some(v) => if v.Flag? then Ok(Some(v.flag)) else Err
  }

  function Texts(items: seq<string>): seq<Value> {
    seq(|items|, i requires 0 <= i < |items| => Value.Text(items[i]))
  }

  predicate AllTexts(items: seq<Value>) {
    forall i | 0 <= i < |items| :: items[i].Text?
  }

  function StringsOf(data: seq<Entry>, key: string): Result<Option<seq<string>>> {
    match Lookup(data, key)
    case None => Ok(None)
    case Some(v) =>
      if v.List? && AllTexts(v.items) then Ok(Some(seq(|v.items|, i requires 0 <= i < |v.items| => v.items[i].text)))
      else Err
  }

  function ListOf(data: seq<Entry>, key: string): Result<seq<string>> {
    match StringsOf(data, key)
    case Err => Err
    case Ok(items) => Ok(Default(items, []))
  }

  function TextEntries(pairs: seq<(string, string)>): seq<Entry> {
    seq(|pairs|, i requires 0 <= i < |pairs| => Entry(pairs[i].0, Value.Text(pairs[i].1)))
  }

  function StringMapOf(data: seq<Entry>, key: string): Result<seq<(string, string)>> {
    match Lookup(data, key)
    case None => Ok([])
    case Some(v) =>
      if v.Table? && forall i | 0 <= i < |v.entries| :: v.entries[i].value.Text? then
        Ok(seq(|v.entries|, i requires 0 <= i < |v.entries| => (v.entries[i].key, v.entries[i].value.text)))
      else Err
  }

  function SecondsOf(data: seq<Entry>, key: string): Result<Option<nat>> {
    match StringOf(data, key)
    case Err => Err
    case Ok(None) => Ok(None)
    case Ok(Some(text)) =>
      match Duration.ParseDuration(text)
      case None => Err
      case Some(n) => Ok(Some(n))
  }

  function ScheduleOf(data: seq<Entry>): Result<Option<Schedule>> {
    match Lookup(data, "schedule")
    case None => Ok(None)
    case Some(v) =>
      match ParseValue(v)
      case Err => Err
      case Ok(s) => Ok(Some(s))
  }

  function Default<T>(o: Option<T>, d: T): T {
    match o
    case None => d
    case Some(v) => v
  }

  // ---- Notifications ----

  predicate TransportKey(key: string) {
    key == "type" || key == "url_env" || key == "command" || key == "title"
  }

  function ParseTransport(name: string, value: Value): Result<Transport> {
    if !value.Table? || exists i | 0 <= i < |value.entries| :: !TransportKey(value.entries[i].key) then Err
    else
      var data := value.entries;
      var command, kind := StringsOf(data, "command"), StringOf(data, "type");
      var urlEnv, title := StringOf(data, "url_env"), StringOf(data, "title");
      if command.Err? || kind.Err? || urlEnv.Err? || title.Err? then Err
      else
        Transported(name, Default(kind.value, ""), urlEnv.value, command.value, title.value)
  }

  /** The rules for each kind; an absent or empty kind follows from whether there is a command. */
  function Transported(name: string, kind: string, urlEnv: Option<string>, command: Option<seq<string>>,
                       title: Option<string>): Result<Transport>
  {
    var argv := Default(command, []);
    var chosen := if kind != "" then kind else if argv != [] then "command" else "ntfy";
    if chosen == "ntfy" then
      if Default(urlEnv, "") == "" || command.Some? then Err else Ok(Transport(name, chosen, urlEnv, [], title))
    else if chosen == "command" then
      if argv == [] || urlEnv.Some? then Err else Ok(Transport(name, chosen, urlEnv, argv, title))
    else Err
  }

  function ParseTransports(entries: seq<Entry>): Result<seq<Transport>> {
    if entries == [] then Ok([])
    else
      var first, rest := ParseTransport(entries[0].key, entries[0].value), ParseTransports(entries[1..]);
      if first.Err? || rest.Err? then Err else Ok([first.value] + rest.value)
  }

  function NotifyOf(data: seq<Entry>): Result<seq<Transport>> {
    match Lookup(data, "notify")
    case None => Ok([])
    case Some(v) => if v.Table? then ParseTransports(v.entries) else Err
  }

  // ---- The whole definition ----

  predicate KnownKeys(data: seq<Entry>) {
    forall i | 0 <= i < |data| :: exists k: Key :: KeyText(k) == data[i].key
  }

  function ParseTask(data: seq<Entry>): Result<Task> {
    var name, description := StringOf(data, "name"), StringOf(data, "description");
    var command, summary := ListOf(data, "command"), StringsOf(data, "summary_cmd");
    var stdin, stdinFile := StringOf(data, "stdin"), StringOf(data, "stdin_file");
    var cwd, mutex, env := StringOf(data, "cwd"), StringOf(data, "lock"), StringMapOf(data, "env");
    var envFiles, pathPrepend := ListOf(data, "env_files"), ListOf(data, "path_prepend");
    var schedule, notify := ScheduleOf(data), NotifyOf(data);
    var timeout, jitter := SecondsOf(data, "timeout"), SecondsOf(data, "jitter");
    var onFailure, onSuccess := ListOf(data, "on_failure"), ListOf(data, "on_success");
    var persistent := FlagOf(data, "persistent");
    var allow, disabled := FlagOf(data, "allow_full_access"), FlagOf(data, "disabled");
    if !KnownKeys(data) || Lookup(data, "schema_version") != Some(Number(2)) then Err
    else if name.Err? || description.Err? || command.Err? || summary.Err? || stdin.Err? || stdinFile.Err?
      || cwd.Err? || mutex.Err? || env.Err? || envFiles.Err? || pathPrepend.Err? || schedule.Err? || notify.Err?
      || timeout.Err? || jitter.Err? || onFailure.Err? || onSuccess.Err?
      || persistent.Err? || allow.Err? || disabled.Err?
    then Err
    else if name.value.None? || !ValidName(name.value.value) || description.value.None?
      || command.value == [] || (stdin.value.Some? && stdinFile.value.Some?) || summary.value == Some([])
    then Err
    else
      Ok(Task(
        name.value.value, description.value.value, command.value, stdin.value, stdinFile.value, cwd.value,
        env.value, envFiles.value, pathPrepend.value, schedule.value,
        timeout.value, Default(jitter.value, 0), persistent.value, mutex.value, summary.value,
        onFailure.value, onSuccess.value,
        Default(allow.value, false), Default(disabled.value, false), notify.value))
  }

  // ---- Printing ----

  function TextIf(o: Option<string>): Option<Value> {
    if o.None? then None else Some(Value.Text(o.value))
  }

  function Strings(items: seq<string>): Value {
    List(Texts(items))
  }

  function StringsUnlessEmpty(items: seq<string>): Option<Value> {
    if items == [] then None else Some(Strings(items))
  }

  function SecondsText(n: nat): Value {
    Value.Text(PrintNat(n) + "s")
  }

  function ScheduleValue(s: Schedule): Value {
    if s.kind.Raw? then Table(s.kind.table) else Value.Text(s.text)
  }

  function Optional(key: string, v: Option<Value>): seq<Entry> {
    if v.None? then [] else [Entry(key, v.value)]
  }

  function TransportEntries(tr: Transport): seq<Entry> {
    Optional("type", Some(Value.Text(tr.kind)))
    + (Optional("url_env", TextIf(tr.urlEnv))
    + (Optional("command", StringsUnlessEmpty(tr.command))
    + (Optional("title", TextIf(tr.title)))))
  }

  function Sections(notify: seq<Transport>): seq<Section> {
    seq(|notify|, i requires 0 <= i < |notify| => Section(notify[i].name, TransportEntries(notify[i])))
  }

  /** What is printed for each field, if anything. */
  function Field(t: Task, k: Key): Option<Value> {
    match k
    case SchemaVersion => Some(Number(2))
    case Name => Some(Value.Text(t.name))
    case Description => Some(Value.Text(t.description))
    case Command => Some(Strings(t.command))
    case Stdin => TextIf(t.stdin)
    case Cwd => TextIf(t.cwd)
    case Env => if t.env == [] then None else Some(Table(TextEntries(t.env)))
    case EnvFiles => StringsUnlessEmpty(t.envFiles)
    case PathPrepend => StringsUnlessEmpty(t.pathPrepend)
    case When => if t.schedule.None? then None else Some(ScheduleValue(t.schedule.value))
    case Timeout => if t.timeoutSeconds.None? then None else Some(SecondsText(t.timeoutSeconds.value))
    case Jitter => if t.jitterSeconds == 0 then None else Some(SecondsText(t.jitterSeconds))
    case Persistent => if t.persistent.None? then None else Some(Flag(t.persistent.value))
    case Mutex => TextIf(t.mutex)
    case SummaryCmd => if t.summaryCmd.None? then None else Some(Strings(t.summaryCmd.value))
    case OnFailure => StringsUnlessEmpty(t.onFailure)
    case OnSuccess => StringsUnlessEmpty(t.onSuccess)
    case AllowFullAccess => if t.allowFullAccess then Some(Flag(true)) else None
    case Disabled => if t.disabled then Some(Flag(true)) else None
    case Notify => if t.notify == [] then None else Some(Table(Tables(Sections(t.notify))))
    case StdinFile => None
  }

  function Present(t: Task, keys: seq<Key>): seq<Entry> {
    if keys == [] then [] else Optional(KeyText(keys[0]), Field(t, keys[0])) + Present(t, keys[1..])
  }

  /** Every value of the task can be printed; only a raw schedule can hold others. */
  predicate PrintableTask(t: Task) {
    t.schedule.Some? && t.schedule.value.kind.Raw? ==> TomlText.Printable(Table(t.schedule.value.kind.table))
  }

  function DumpedText(t: Task): string {
    PrintPairs(Present(t, PRINTED)) + PrintSections(Sections(t.notify))
  }

  function Dump(t: Task): Result<string> {
    if PrintableTask(t) then Ok(DumpedText(t)) else Err
  }

  function Load(text: string): Result<Task> {
    match ReadDocument(text)
    case None => Err
    case Some(data) => ParseTask(data)
  }

  /** Reading the standard input of a task into its definition. */
  function Materialize(t: Task, content: Option<string>): Result<Task> {
    if t.stdinFile.None? then Ok(t)
    else if content.None? then Err
    else Ok(t.(stdin := content, stdinFile := None))
  }

  /** Materialising fails only without the content, and changes nothing but the standard input. */
  lemma MaterializedMeans(t: Task, content: Option<string>)
    ensures Materialize(t, content).Err? <==> t.stdinFile.Some? && content.None?
    ensures Materialize(t, content).Ok? ==>
      var m := Materialize(t, content).value;
      && m.stdinFile.None? && m.stdin == (if t.stdinFile.Some? then content else t.stdin)
      && m == t.(stdin := m.stdin, stdinFile := None)
  {}

  // ---- The tasks a definition can describe ----

  predicate DistinctNames(pairs: seq<(string, string)>) {
    forall i, j | 0 <= i < j < |pairs| :: pairs[i].0 != pairs[j].0
  }

  predicate ValidTransport(tr: Transport) {
    || (tr.kind == "ntfy" && tr.urlEnv.Some? && tr.urlEnv.value != "" && tr.command == [])
    || (tr.kind == "command" && tr.command != [] && tr.urlEnv.None?)
  }

  predicate ValidTransports(notify: seq<Transport>) {
    && (forall i | 0 <= i < |notify| :: ValidTransport(notify[i]))
    && (forall i, j | 0 <= i < j < |notify| :: notify[i].name != notify[j].name)
  }

  predicate ValidSchedule(s: Schedule) {
    if s.kind.Raw? then ParseRaw(s.kind.table) == Ok(s) && WellKeyed(Table(s.kind.table))
    else Produced(s.kind) && s == Canonical(s.kind)
  }

  predicate Valid(t: Task) {
    && ValidName(t.name) && t.command != [] && t.summaryCmd != Some([])
    && !(t.stdin.Some? && t.stdinFile.Some?)
    && DistinctNames(t.env)
    && (t.schedule.Some? ==> ValidSchedule(t.schedule.value))
    && ValidTransports(t.notify)
  }

  // ---- Looking up what was printed ----

  /** Length and one character tell the fields apart. */
  function Signature(s: string): (int, char) {
    (|s|, if |s| == 10 then s[4] else if |s| > 1 then s[1] else ' ')
  }

  function KeyOf(signature: (int, char)): Key {
    match signature.0
    case 3 => if signature.1 == 'w' then Cwd else Env
    case 4 => if signature.1 == 'a' then Name else Mutex
    case 5 => Stdin
    case 6 => if signature.1 == 'i' then Jitter else Notify
    case 7 => if signature.1 == 'o' then Command else Timeout
    case 8 => if signature.1 == 'c' then When else Disabled
    case 9 => EnvFiles
    case 10 =>
      if signature.1 == 'n' then StdinFile else if signature.1 == 'i' then Persistent
      else if signature.1 == 'a' then OnFailure else OnSuccess
    case 11 => if signature.1 == 'e' then Description else SummaryCmd
    case 12 => PathPrepend
    case 14 => SchemaVersion
    case _ => AllowFullAccess
  }

  lemma SignatureTells(k: Key)
    ensures KeyOf(Signature(KeyText(k))) == k
  {}

  lemma KeysAreDistinct(a: Key, b: Key)
    ensures KeyText(a) == KeyText(b) <==> a == b
  {
    SignatureTells(a);
    SignatureTells(b);
  }

  lemma ShortKeysAreBare(k: Key)
    requires |KeyText(k)| <= 8
    ensures BareKey(KeyText(k))
  {}

  lemma MiddleKeysAreBare(k: Key)
    requires 8 < |KeyText(k)| <= 10
    ensures BareKey(KeyText(k))
  {}

  lemma LongKeysAreBare(k: Key)
    requires |KeyText(k)| > 10
    ensures BareKey(KeyText(k))
  {}

  lemma KeysAreBare(k: Key)
    ensures BareKey(KeyText(k))
  {
    if |KeyText(k)| <= 8 {
      ShortKeysAreBare(k);
    } else if |KeyText(k)| <= 10 {
      MiddleKeysAreBare(k);
    } else {
      LongKeysAreBare(k);
    }
  }

  lemma {:induction false} LookupPresent(t: Task, keys: seq<Key>, k: Key)
    ensures Lookup(Present(t, keys), KeyText(k)) == if k in keys then Field(t, k) else None
  {
    if keys != [] {
      LookupPresent(t, keys[1..], k);
      KeysAreDistinct(keys[0], k);
      LookupOptional(KeyText(keys[0]), Field(t, keys[0]), Present(t, keys[1..]), KeyText(k));
    }
  }

  lemma {:induction false} PresentAppends(t: Task, keys: seq<Key>, more: seq<Key>)
    ensures Present(t, keys + more) == Present(t, keys) + Present(t, more)
  {
    if keys == [] {
      assert keys + more == more;
    } else {
      assert (keys + more)[1..] == keys[1..] + more;
      PresentAppends(t, keys[1..], more);
      Regroup(Optional(KeyText(keys[0]), Field(t, keys[0])), Present(t, keys[1..]), Present(t, more));
    }
  }

  lemma Regroup(a: seq<Entry>, b: seq<Entry>, c: seq<Entry>)
    ensures a + (b + c) == a + b + c
  {}

  function Document(t: Task): seq<Entry> {
    Present(t, PRINTED + [Notify])
  }

  lemma DocumentIsAssembled(t: Task)
    ensures Assemble(Present(t, PRINTED), Sections(t.notify)) == Document(t)
  {
    PresentAppends(t, PRINTED, [Notify]);
    assert Present(t, [Notify][1..]) == [];
  }

  lemma FieldReads(t: Task, k: Key)
    ensures Lookup(Document(t), KeyText(k)) == Field(t, k)
  {
    LookupPresent(t, PRINTED + [Notify], k);
    EveryFieldIsPrinted(k);
  }

  lemma EveryFieldIsPrinted(k: Key)
    ensures k.StdinFile? || k in PRINTED + [Notify]
  {
    var all := PRINTED + [Notify];
    match k
    case SchemaVersion => assert all[0] == k;
    case Name => assert all[1] == k;
    case Description => assert all[2] == k;
    case Command => assert all[3] == k;
    case Stdin => assert all[4] == k;
    case Cwd => assert all[5] == k;
    case Env => assert all[6] == k;
    case EnvFiles => assert all[7] == k;
    case PathPrepend => assert all[8] == k;
    case When => assert all[9] == k;
    case Timeout => assert all[10] == k;
    case Jitter => assert all[11] == k;
    case Persistent => assert all[12] == k;
    case Mutex => assert all[13] == k;
    case SummaryCmd => assert all[14] == k;
    case OnFailure => assert all[15] == k;
    case OnSuccess => assert all[16] == k;
    case AllowFullAccess => assert all[17] == k;
    case Disabled => assert all[18] == k;
    case Notify => assert all[19] == k;
    case StdinFile =>
  }

  lemma {:induction false} PresentKeysAreKnown(t: Task, keys: seq<Key>)
    ensures KnownKeys(Present(t, keys)) && BareKeys(Present(t, keys))
  {
    if keys != [] {
      PresentKeysAreKnown(t, keys[1..]);
      KeysAreBare(keys[0]);
    }
  }

  // ---- Typed fields read back ----

  lemma StringsBack(data: seq<Entry>, key: string, items: seq<string>)
    requires Lookup(data, key) == Some(Strings(items))
    ensures StringsOf(data, key) == Ok(Some(items))
  {
    var r := StringsOf(data, key);
    assert r.Ok? && r.value.Some?;
    assert r.value.value == items;
  }

  lemma ListBack(data: seq<Entry>, key: string, items: seq<string>)
    requires Lookup(data, key) == StringsUnlessEmpty(items)
    ensures ListOf(data, key) == Ok(items)
  {
    if items != [] {
      StringsBack(data, key, items);
    }
  }

  lemma StringMapBack(data: seq<Entry>, key: string, pairs: seq<(string, string)>)
    requires Lookup(data, key) == if pairs == [] then None else Some(Table(TextEntries(pairs)))
    ensures StringMapOf(data, key) == Ok(pairs)
  {
    if pairs != [] {
      var r := StringMapOf(data, key);
      assert r.Ok? && |r.value| == |pairs|;
      forall i | 0 <= i < |pairs| ensures r.value[i] == pairs[i] {}
      assert r.value == pairs;
    }
  }

  lemma SecondsBack(data: seq<Entry>, key: string, n: nat)
    requires Lookup(data, key) == Some(SecondsText(n))
    ensures SecondsOf(data, key) == Ok(Some(n))
  {
    Duration.SecondsRoundTrip(n);
  }

  lemma ScheduleBack(data: seq<Entry>, s: Option<Schedule>)
    requires s.Some? ==> ValidSchedule(s.value)
    requires Lookup(data, "schedule") == if s.None? then None else Some(ScheduleValue(s.value))
    ensures ScheduleOf(data) == Ok(s)
  {
    if s.Some? && !s.value.kind.Raw? {
      CanonicalParses(s.value.kind);
    }
  }

  // ---- Notifications read back ----

  lemma LookupOptional(key: string, v: Option<Value>, rest: seq<Entry>, sought: string)
    ensures Lookup(Optional(key, v) + rest, sought) == if v.Some? && key == sought then v else Lookup(rest, sought)
  {
    if v.Some? {
      assert ([Entry(key, v.value)] + rest)[1..] == rest;
    } else {
      assert [] + rest == rest;
    }
  }

  function TransportField(tr: Transport, key: string): Option<Value> {
    if key == "type" then Some(Value.Text(tr.kind))
    else if key == "url_env" then TextIf(tr.urlEnv)
    else if key == "command" then StringsUnlessEmpty(tr.command)
    else if key == "title" then TextIf(tr.title)
    else None
  }

  lemma TransportFields(tr: Transport, key: string)
    ensures Lookup(TransportEntries(tr), key) == TransportField(tr, key)
  {
    var kind, urlEnv := TransportField(tr, "type"), TransportField(tr, "url_env");
    var command, title := TransportField(tr, "command"), TransportField(tr, "title");
    TransportNames();
    var last := Optional("title", title);
    assert last + [] == last;
    LookupOptional("title", title, [], key);
    LookupOptional("command", command, last, key);
    LookupOptional("url_env", urlEnv, Optional("command", command) + last, key);
    LookupOptional("type", kind, Optional("url_env", urlEnv) + (Optional("command", command) + last), key);
  }

  lemma TransportNames()
    ensures "type" != "url_env" && "type" != "command" && "type" != "title"
    ensures "url_env" != "command" && "url_env" != "title" && "command" != "title"
  {
    assert "url_env"[0] == 'u' && "command"[0] == 'c';
  }

  lemma TransportBack(tr: Transport)
    requires ValidTransport(tr)
    ensures ParseTransport(tr.name, Table(TransportEntries(tr))) == Ok(tr)
  {
    var data := TransportEntries(tr);
    TransportNames();
    TransportFields(tr, "type");
    TransportFields(tr, "url_env");
    TransportFields(tr, "command");
    TransportFields(tr, "title");
    if tr.command != [] {
      StringsBack(data, "command", tr.command);
    }
  }

  lemma TablesHead(notify: seq<Transport>)
    requires notify != []
    ensures var entries := Tables(Sections(notify));
      entries != [] && entries[0] == Entry(notify[0].name, Table(TransportEntries(notify[0])))
      && entries[1..] == Tables(Sections(notify[1..]))
  {}

  lemma HeadAndTail<T>(s: seq<T>)
    requires s != []
    ensures [s[0]] + s[1..] == s
  {}

  lemma {:induction false} TransportsBack(notify: seq<Transport>)
    requires forall i | 0 <= i < |notify| :: ValidTransport(notify[i])
    ensures ParseTransports(Tables(Sections(notify))) == Ok(notify)
  {
    if notify != [] {
      TablesHead(notify);
      TransportBack(notify[0]);
      TransportsBack(notify[1..]);
      HeadAndTail(notify);
    }
  }

  // ---- The whole task read back ----

  /** A table that holds exactly what is printed for every field of the task. */
  ghost predicate Prints(d: seq<Entry>, t: Task) {
    forall k: Key :: FieldIn(d, k) == Field(t, k)
  }

  function FieldIn(d: seq<Entry>, k: Key): Option<Value> {
    Lookup(d, KeyText(k))
  }

  lemma DocumentPrints(t: Task)
    ensures Prints(Document(t), t)
  {
    forall k: Key ensures FieldIn(Document(t), k) == Field(t, k) {
      FieldReads(t, k);
    }
  }

  lemma StringFieldsBack(d: seq<Entry>, t: Task)
    requires Prints(d, t)
    ensures StringOf(d, "name") == Ok(Some(t.name))
    ensures StringOf(d, "description") == Ok(Some(t.description))
    ensures StringOf(d, "stdin") == Ok(t.stdin)
    ensures StringOf(d, "stdin_file") == Ok(None)
    ensures StringOf(d, "cwd") == Ok(t.cwd)
    ensures StringOf(d, "lock") == Ok(t.mutex)
  {
    assert FieldIn(d, Name).Some? && FieldIn(d, Description).Some? && FieldIn(d, StdinFile).None?;
    assert FieldIn(d, Stdin) == Field(t, Stdin) && FieldIn(d, Cwd) == Field(t, Cwd);
    assert FieldIn(d, Mutex) == Field(t, Mutex);
  }

  lemma ListFieldBack(d: seq<Entry>, t: Task, k: Key, items: seq<string>)
    requires Prints(d, t) && Field(t, k) == StringsUnlessEmpty(items)
    ensures ListOf(d, KeyText(k)) == Ok(items)
  {
    assert FieldIn(d, k) == Field(t, k);
    ListBack(d, KeyText(k), items);
  }

  lemma ListFieldsBack(d: seq<Entry>, t: Task)
    requires Prints(d, t)
    ensures ListOf(d, "env_files") == Ok(t.envFiles) && ListOf(d, "path_prepend") == Ok(t.pathPrepend)
    ensures ListOf(d, "on_failure") == Ok(t.onFailure) && ListOf(d, "on_success") == Ok(t.onSuccess)
  {
    ListFieldBack(d, t, EnvFiles, t.envFiles);
    ListFieldBack(d, t, PathPrepend, t.pathPrepend);
    ListFieldBack(d, t, OnFailure, t.onFailure);
    ListFieldBack(d, t, OnSuccess, t.onSuccess);
  }

  lemma CommandsBack(d: seq<Entry>, t: Task)
    requires Prints(d, t)
    ensures ListOf(d, "command") == Ok(t.command) && StringsOf(d, "summary_cmd") == Ok(t.summaryCmd)
  {
    assert FieldIn(d, Command) == Field(t, Command) && FieldIn(d, SummaryCmd) == Field(t, SummaryCmd);
    StringsBack(d, "command", t.command);
    if t.summaryCmd.Some? {
      StringsBack(d, "summary_cmd", t.summaryCmd.value);
    }
  }

  lemma TimeoutBack(d: seq<Entry>, t: Task)
    requires Prints(d, t)
    ensures SecondsOf(d, "timeout") == Ok(t.timeoutSeconds)
  {
    assert FieldIn(d, Timeout) == Field(t, Timeout);
    if t.timeoutSeconds.Some? {
      SecondsBack(d, "timeout", t.timeoutSeconds.value);
    }
  }

  lemma JitterBack(d: seq<Entry>, t: Task)
    requires Prints(d, t)
    ensures SecondsOf(d, "jitter").Ok? && Default(SecondsOf(d, "jitter").value, 0) == t.jitterSeconds
  {
    assert FieldIn(d, Jitter) == Field(t, Jitter);
    if t.jitterSeconds != 0 {
      SecondsBack(d, "jitter", t.jitterSeconds);
    }
  }

  lemma WhenBack(d: seq<Entry>, t: Task)
    requires Prints(d, t) && Valid(t)
    ensures ScheduleOf(d) == Ok(t.schedule)
  {
    assert FieldIn(d, When) == Field(t, When);
    ScheduleBack(d, t.schedule);
  }

  lemma FlagFieldsBack(d: seq<Entry>, t: Task)
    requires Prints(d, t)
    ensures FlagOf(d, "persistent") == Ok(t.persistent)
    ensures var allow := FlagOf(d, "allow_full_access"); allow.Ok? && Default(allow.value, false) == t.allowFullAccess
    ensures FlagOf(d, "disabled").Ok? && Default(FlagOf(d, "disabled").value, false) == t.disabled
  {
    assert FieldIn(d, Persistent) == Field(t, Persistent);
    assert FieldIn(d, AllowFullAccess) == Field(t, AllowFullAccess) && FieldIn(d, Disabled) == Field(t, Disabled);
  }

  lemma EnvBack(d: seq<Entry>, t: Task)
    requires Prints(d, t)
    ensures StringMapOf(d, "env") == Ok(t.env)
  {
    assert FieldIn(d, Env) == Field(t, Env);
    StringMapBack(d, "env", t.env);
  }

  lemma NotifyBack(d: seq<Entry>, t: Task)
    requires Prints(d, t) && Valid(t)
    ensures NotifyOf(d) == Ok(t.notify)
  {
    assert FieldIn(d, Notify) == Field(t, Notify);
    TransportsBack(t.notify);
  }

  lemma PrintedParses(d: seq<Entry>, t: Task)
    requires Prints(d, t) && KnownKeys(d) && Valid(t) && t.stdinFile.None?
    ensures ParseTask(d) == Ok(t)
  {
    assert FieldIn(d, SchemaVersion) == Field(t, SchemaVersion);
    StringFieldsBack(d, t);
    ListFieldsBack(d, t);
    CommandsBack(d, t);
    TimeoutBack(d, t);
    JitterBack(d, t);
    WhenBack(d, t);
    FlagFieldsBack(d, t);
    EnvBack(d, t);
    NotifyBack(d, t);
  }

  // ---- No table of a definition repeats a key ----

  predicate KeysFrom(entries: seq<Entry>, t: Task, keys: seq<Key>) {
    forall i | 0 <= i < |entries| ::
      exists k | k in keys :: entries[i].key == KeyText(k) && Field(t, k) == Some(entries[i].value)
  }

  lemma {:induction false} PresentKeysFrom(t: Task, keys: seq<Key>)
    ensures KeysFrom(Present(t, keys), t, keys)
  {
    if keys != [] {
      PresentKeysFrom(t, keys[1..]);
      assert forall k | k in keys[1..] :: k in keys;
      assert keys[0] in keys;
    }
  }

  lemma {:induction false} PresentIsDistinct(t: Task, keys: seq<Key>)
    requires forall i, j | 0 <= i < j < |keys| :: keys[i] != keys[j]
    ensures DistinctKeys(Present(t, keys))
  {
    if keys != [] {
      PresentIsDistinct(t, keys[1..]);
      NewKey(t, keys[0], keys[1..]);
    }
  }

  lemma NewKey(t: Task, k: Key, keys: seq<Key>)
    requires k !in keys
    ensures forall i | 0 <= i < |Present(t, keys)| :: Present(t, keys)[i].key != KeyText(k)
  {
    PresentKeysFrom(t, keys);
    var entries := Present(t, keys);
    forall i | 0 <= i < |entries| ensures entries[i].key != KeyText(k) {
      var other :| other in keys && entries[i].key == KeyText(other);
      KeysAreDistinct(other, k);
    }
  }

  lemma {:induction false} PresentIsWellKeyed(t: Task, keys: seq<Key>)
    requires Valid(t)
    ensures forall i | 0 <= i < |Present(t, keys)| :: WellKeyed(Present(t, keys)[i].value)
  {
    if keys != [] {
      PresentIsWellKeyed(t, keys[1..]);
      if Field(t, keys[0]).Some? {
        FieldIsWellKeyed(t, keys[0]);
      }
    }
  }

  lemma FieldIsWellKeyed(t: Task, k: Key)
    requires Valid(t) && Field(t, k).Some?
    ensures WellKeyed(Field(t, k).value)
  {
    if k.Notify? {
      SectionsAreWellKeyed(t.notify);
    } else if k.When? && t.schedule.value.kind.Raw? {
      assert WellKeyed(Table(t.schedule.value.kind.table));
    }
  }

  lemma TransportKeysAreBare(key: string)
    requires TransportKey(key)
    ensures BareKey(key)
  {}

  lemma TransportIsWellKeyed(tr: Transport)
    ensures WellKeyed(Table(TransportEntries(tr)))
    ensures BareKeys(TransportEntries(tr)) && PrintablePairs(TransportEntries(tr))
  {
    TransportNames();
    TransportKeys(tr);
    var entries := TransportEntries(tr);
    forall i | 0 <= i < |entries| ensures BareKey(entries[i].key) {
      TransportKeysAreBare(entries[i].key);
    }
  }

  /** An entry of one key with a plain value, or nothing. */
  lemma OnePlainEntry(key: string, v: Option<Value>)
    requires TransportKey(key) && (v.Some? ==> PlainValue(v.value))
    ensures PlainEntries(Optional(key, v)) && DistinctKeys(Optional(key, v))
  {}

  predicate PlainValue(v: Value) {
    WellKeyed(v) && TomlText.Printable(v)
  }

  predicate PlainEntries(entries: seq<Entry>) {
    forall i | 0 <= i < |entries| :: TransportKey(entries[i].key) && PlainValue(entries[i].value)
  }

  predicate WithoutKey(entries: seq<Entry>, key: string) {
    forall i | 0 <= i < |entries| :: entries[i].key != key
  }

  lemma MorePlainEntries(key: string, v: Option<Value>, rest: seq<Entry>)
    requires TransportKey(key) && (v.Some? ==> PlainValue(v.value))
    requires PlainEntries(rest) && DistinctKeys(rest) && WithoutKey(rest, key)
    ensures PlainEntries(Optional(key, v) + rest) && DistinctKeys(Optional(key, v) + rest)
    ensures forall k | k != key && WithoutKey(rest, k) :: WithoutKey(Optional(key, v) + rest, k)
  {}

  lemma TextsArePlain(items: seq<string>)
    ensures PlainValue(Strings(items))
  {}

  /** The keys of a transport are a subsequence of four different ones. */
  lemma TransportKeys(tr: Transport)
    requires "type" != "url_env" && "type" != "command" && "type" != "title"
    requires "url_env" != "command" && "url_env" != "title" && "command" != "title"
    ensures PlainEntries(TransportEntries(tr)) && DistinctKeys(TransportEntries(tr))
  {
    var kind, urlEnv := Some(Value.Text(tr.kind)), TextIf(tr.urlEnv);
    var command, title := StringsUnlessEmpty(tr.command), TextIf(tr.title);
    var c, d := Optional("command", command), Optional("title", title);
    TextsArePlain(tr.command);
    OnePlainEntry("title", title);
    MorePlainEntries("command", command, d);
    MorePlainEntries("url_env", urlEnv, c + d);
    MorePlainEntries("type", kind, Optional("url_env", urlEnv) + (c + d));
  }

  lemma SectionsAreWellKeyed(notify: seq<Transport>)
    requires ValidTransports(notify)
    ensures WellKeyed(Table(Tables(Sections(notify)))) && PlainSections(Sections(notify))
  {
    var entries := Tables(Sections(notify));
    forall i | 0 <= i < |notify|
      ensures WellKeyed(entries[i].value) && BareKeys(Sections(notify)[i].entries)
      ensures PrintablePairs(Sections(notify)[i].entries)
    {
      TransportIsWellKeyed(notify[i]);
    }
  }

  lemma PrintedKeysDiffer()
    ensures var all := PRINTED + [Notify]; forall i, j | 0 <= i < j < |all| :: all[i] != all[j]
  {}

  lemma DocumentIsWellKeyed(t: Task)
    requires Valid(t)
    ensures WellKeyed(Table(Document(t)))
  {
    PrintedKeysDiffer();
    PresentIsDistinct(t, PRINTED + [Notify]);
    PresentIsWellKeyed(t, PRINTED + [Notify]);
  }

  // ---- The round trip ----

  /** No string of the definition contains U+007F, which is printed as it is but may not be read so. */
  predicate CleanTask(t: Task) {
    CleanPairs(Present(t, PRINTED)) && CleanSections(Sections(t.notify))
  }

  lemma {:induction false} CleanLookup(data: seq<Entry>, key: string)
    requires CleanPairs(data) && Lookup(data, key).Some?
    ensures TomlText.Clean(Lookup(data, key).value)
  {
    if data[0].key != key {
      CleanLookup(data[1..], key);
    }
  }

  /** Every printed field of a clean task is clean. */
  lemma CleanFields(t: Task, k: Key)
    requires CleanTask(t) && k in PRINTED && Field(t, k).Some?
    ensures TomlText.Clean(Field(t, k).value)
  {
    LookupPresent(t, PRINTED, k);
    CleanLookup(Present(t, PRINTED), KeyText(k));
  }

  lemma FieldIsPrintable(t: Task, k: Key)
    requires Field(t, k).Some?
    ensures TomlText.Printable(Field(t, k).value) <==> PrintableTask(t) || !k.When?
  {
    if k.Notify? {
      forall i | 0 <= i < |t.notify| ensures TomlText.Printable(Table(TransportEntries(t.notify[i]))) {
        TransportIsWellKeyed(t.notify[i]);
      }
    }
  }

  lemma {:induction false} PresentIsPrintable(t: Task, keys: seq<Key>)
    requires PrintableTask(t)
    ensures PrintablePairs(Present(t, keys))
  {
    if keys != [] {
      PresentIsPrintable(t, keys[1..]);
      if Field(t, keys[0]).Some? {
        FieldIsPrintable(t, keys[0]);
      }
    }
  }

  /**
   * A valid task whose standard input is materialised can be printed exactly when its raw schedule,
   * if it has one, holds no other values, and is then read back exactly when it is clean.
   */
  lemma DefinitionRoundTrip(t: Task)
    requires Valid(t) && t.stdinFile.None?
    ensures Dump(t).Ok? <==> PrintableTask(t)
    ensures Dump(t).Ok? ==> Load(Dump(t).value) == if CleanTask(t) then Ok(t) else Err
  {
    if PrintableTask(t) {
      TextRoundTrip(t);
    }
  }

  lemma TextRoundTrip(t: Task)
    requires Valid(t) && t.stdinFile.None? && PrintableTask(t)
    ensures Load(DumpedText(t)) == if CleanTask(t) then Ok(t) else Err
  {
    PresentIsPrintable(t, PRINTED);
    DocumentIsAssembled(t);
    DocumentIsWellKeyed(t);
    PresentKeysAreKnown(t, PRINTED);
    PresentKeysAreKnown(t, PRINTED + [Notify]);
    SectionsAreWellKeyed(t.notify);
    DocumentReads(Present(t, PRINTED), Sections(t.notify));
    DocumentPrints(t);
    PrintedParses(Document(t), t);
  }

  // ---- Everything the reader accepts is valid ----

  lemma {:induction false} LookupIsWellKeyed(data: seq<Entry>, key: string)
    requires forall i | 0 <= i < |data| :: WellKeyed(data[i].value)
    ensures Lookup(data, key).Some? ==> WellKeyed(Lookup(data, key).value)
  {
    if data != [] {
      LookupIsWellKeyed(data[1..], key);
    }
  }

  lemma EnvIsDistinct(data: seq<Entry>)
    requires WellKeyed(Table(data)) && StringMapOf(data, "env").Ok?
    ensures DistinctNames(StringMapOf(data, "env").value)
  {
    LookupIsWellKeyed(data, "env");
  }

  lemma ScheduleIsValid(data: seq<Entry>)
    requires WellKeyed(Table(data)) && ScheduleOf(data).Ok?
    ensures ScheduleOf(data).value.Some? ==> ValidSchedule(ScheduleOf(data).value.value)
  {
    LookupIsWellKeyed(data, "schedule");
    var v := Lookup(data, "schedule");
    if v.Some? && v.value.Text? {
      ParseIsProduced(v.value.text);
    }
  }

  lemma TransportIsValid(name: string, value: Value)
    requires ParseTransport(name, value).Ok?
    ensures ValidTransport(ParseTransport(name, value).value) && ParseTransport(name, value).value.name == name
    ensures value.Table? && forall i | 0 <= i < |value.entries| :: TransportKey(value.entries[i].key)
  {}

  lemma {:induction false} TransportsAreValid(entries: seq<Entry>)
    requires ParseTransports(entries).Ok?
    ensures var ts := ParseTransports(entries).value;
      |ts| == |entries| && forall i | 0 <= i < |ts| :: ValidTransport(ts[i]) && ts[i].name == entries[i].key
  {
    if entries != [] {
      TransportIsValid(entries[0].key, entries[0].value);
      TransportsAreValid(entries[1..]);
    }
  }

  lemma NotifyIsValid(data: seq<Entry>)
    requires WellKeyed(Table(data)) && NotifyOf(data).Ok?
    ensures ValidTransports(NotifyOf(data).value)
  {
    LookupIsWellKeyed(data, "notify");
    var v := Lookup(data, "notify");
    if v.Some? {
      TransportsAreValid(v.value.entries);
    }
  }

  /** An accepted definition has the supported version, known fields only, and describes a valid task. */
  lemma ParsedIsValid(data: seq<Entry>)
    requires WellKeyed(Table(data)) && ParseTask(data).Ok?
    ensures KnownKeys(data) && FieldIn(data, SchemaVersion) == Some(Number(2))
    ensures Valid(ParseTask(data).value)
  {
    EnvIsDistinct(data);
    ScheduleIsValid(data);
    NotifyIsValid(data);
  }

  /** A task as the command line describes it; every option but the name and the command may be missing. */
  function Added(name: string, command: seq<string>, description: Option<string>, schedule: Option<string>, cwd: string,
                 timeout: Option<string>, stdin: Option<string>, stdinFile: Option<string>): Result<Task>
  {
    var parsed := if Default(schedule, "") == "" then Ok(None) else
      match ParseText(schedule.value)
      case Err => Err
      case Ok(s) => Ok(Some(s));
    if (stdin.Some? && stdinFile.Some?) || command == [] || !ValidName(name) || parsed.Err? then Err
    else if timeout.Some? && Duration.ParseDuration(timeout.value).None? then Err
    else
      Ok(Task(name, if Default(description, "") == "" then name else description.value, command, stdin, stdinFile,
              Some(cwd), [], [], [], parsed.value,
              if timeout.None? then None else Duration.ParseDuration(timeout.value),
              0, None, None, None, [], [], false, false, []))
  }

  /** What the command line's options come to; everything else is left at its default. */
  lemma AddedMeans(name: string, command: seq<string>, description: Option<string>, schedule: Option<string>,
                   cwd: string, timeout: Option<string>, stdin: Option<string>, stdinFile: Option<string>, t: Task)
    requires Added(name, command, description, schedule, cwd, timeout, stdin, stdinFile) == Ok(t)
    ensures t.name == name && t.command == command && t.cwd == Some(cwd)
    ensures t.description == if description.Some? && description.value != "" then description.value else name
    ensures t.stdin == stdin && t.stdinFile == stdinFile && (stdin.None? || stdinFile.None?)
    ensures t.schedule.Some? <==> schedule.Some? && schedule.value != ""
    ensures t.schedule.Some? ==> ParseText(schedule.value) == Ok(t.schedule.value)
    ensures t.timeoutSeconds.Some? <==> timeout.Some?
    ensures timeout.Some? ==> Duration.ParseDuration(timeout.value) == t.timeoutSeconds
    ensures t.env == [] && t.envFiles == [] && t.pathPrepend == [] && t.jitterSeconds == 0 && t.persistent.None?
    ensures t.mutex.None? && t.summaryCmd.None? && t.onFailure == [] && t.onSuccess == [] && t.notify == []
    ensures !t.allowFullAccess && !t.disabled
  {}

  lemma AddedIsValid(name: string, command: seq<string>, description: Option<string>, schedule: Option<string>,
                     cwd: string, timeout: Option<string>, stdin: Option<string>, stdinFile: Option<string>)
    ensures var r := Added(name, command, description, schedule, cwd, timeout, stdin, stdinFile);
      r.Ok? ==> Valid(r.value)
  {
    if schedule.Some? && ParseText(schedule.value).Ok? {
      ParseIsProduced(schedule.value);
    }
  }

  /**
   * Whatever definition is accepted and materialised, its installed copy, if it can be written,
   * reads back as the same task or is rejected.
   */
  lemma InstalledCopyIsTheTask(data: seq<Entry>, content: Option<string>)
    requires WellKeyed(Table(data)) && ParseTask(data).Ok? && Materialize(ParseTask(data).value, content).Ok?
    ensures var t := Materialize(ParseTask(data).value, content).value;
      && (Dump(t).Ok? <==> PrintableTask(t))
      && (Dump(t).Ok? ==> Load(Dump(t).value) == if CleanTask(t) then Ok(t) else Err)
  {
    ParsedIsValid(data);
    DefinitionRoundTrip(Materialize(ParseTask(data).value, content).value);
  }
}
