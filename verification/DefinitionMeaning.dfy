/** What a definition means, key by key: the reader accepts exactly what describes a task. */
module DefinitionMeaning {
  import opened Common
  import opened Text
  import opened TomlValue
  import opened Schedule
  import opened ScheduleText
  import opened TaskSpec
  import opened Definition
  import Duration

  // ---- What the value of one key means ----

  predicate TextMeans(v: Option<Value>, o: Option<string>) {
    match o
    case None => v.None?
    case Some(s) => v == Some(Value.Text(s))
  }

  predicate ListMeans(v: Option<Value>, o: Option<seq<string>>) {
    match o
    case None => v.None?
    case Some(items) => v == Some(Value.List(seq(|items|, i requires 0 <= i < |items| => Value.Text(items[i]))))
  }

  /** An absent list is empty. */
  predicate ItemsMean(v: Option<Value>, items: seq<string>) {
    ListMeans(v, Some(items)) || (v.None? && items == [])
  }

  predicate FlagMeans(v: Option<Value>, o: Option<bool>) {
    match o
    case None => v.None?
    case Some(b) => v == Some(Value.Flag(b))
  }

  /** An absent flag is not set. */
  predicate SwitchMeans(v: Option<Value>, b: bool) {
    v == Some(Value.Flag(b)) || (v.None? && !b)
  }

  predicate SecondsMean(v: Option<Value>, o: Option<nat>) {
    match o
    case None => v.None?
    case Some(n) => v.Some? && v.value.Text? && Duration.ParseDuration(v.value.text) == Some(n)
  }

  predicate PairsMean(v: Option<Value>, pairs: seq<(string, string)>) {
    || (v.None? && pairs == [])
    || (v.Some? && v.value.Table? && |v.value.entries| == |pairs|
        && forall i | 0 <= i < |pairs| :: v.value.entries[i] == Entry(pairs[i].0, Value.Text(pairs[i].1)))
  }

  /** A text in the grammar, or a table that names backends only. */
  predicate ScheduleMeans(v: Option<Value>, o: Option<Schedule>) {
    match o
    case None => v.None?
    case Some(s) =>
      v.Some? && match v.value
                 case Text(x) => ParseText(x) == Ok(s)
                 case Table(table) => s == Schedule("custom", Raw(table)) && NamesBackends(table)
                 case _ => false
  }

  predicate NamesBackends(table: seq<Entry>) {
    table != [] && forall i | 0 <= i < |table| :: table[i].key == "systemd" || table[i].key == "launchd"
  }

  // ---- Notifications ----

  /** The kind as written, or by whether there is a command. */
  predicate KindMeans(v: Option<Value>, kind: string, command: seq<string>) {
    || (kind != "" && v == Some(Value.Text(kind)))
    || ((v.None? || v == Some(Value.Text(""))) && kind == if command != [] then "command" else "ntfy")
  }

  /** An ntfy transport has an address and no command, a command transport the other way round. */
  predicate TransportMeans(e: Entry, tr: Transport) {
    && e.key == tr.name && e.value.Table?
    && var d := e.value.entries;
       && (forall i | 0 <= i < |d| :: d[i].key in {"type", "url_env", "command", "title"})
       && KindMeans(Lookup(d, "type"), tr.kind, tr.command)
       && TextMeans(Lookup(d, "url_env"), tr.urlEnv) && TextMeans(Lookup(d, "title"), tr.title)
       && ((tr.kind == "ntfy" && tr.urlEnv.Some? && tr.urlEnv.value != ""
            && tr.command == [] && Lookup(d, "command").None?)
           || (tr.kind == "command" && tr.urlEnv.None?
               && tr.command != [] && ListMeans(Lookup(d, "command"), Some(tr.command))))
  }

  predicate NotifyMeans(v: Option<Value>, notify: seq<Transport>) {
    || (v.None? && notify == [])
    || (v.Some? && v.value.Table? && TablesMean(v.value.entries, notify))
  }

  predicate TablesMean(entries: seq<Entry>, notify: seq<Transport>) {
    |entries| == |notify| && forall i | 0 <= i < |notify| :: TransportMeans(entries[i], notify[i])
  }

  // ---- The readers mean that ----

  lemma TextReads(d: seq<Entry>, key: string, o: Option<string>)
    ensures StringOf(d, key) == Ok(o) <==> TextMeans(Lookup(d, key), o)
  {}

  lemma SameTexts(items: seq<Value>, texts: seq<string>)
    requires AllTexts(items)
    ensures seq(|items|, i requires 0 <= i < |items| => items[i].text) == texts <==>
      items == seq(|texts|, i requires 0 <= i < |texts| => Value.Text(texts[i]))
  {
    var read := seq(|items|, i requires 0 <= i < |items| => items[i].text);
    var printed := seq(|texts|, i requires 0 <= i < |texts| => Value.Text(texts[i]));
    if read == texts {
      forall i | 0 <= i < |items| ensures items[i] == printed[i] {
        assert read[i] == texts[i];
      }
    }
    if items == printed {
      forall i | 0 <= i < |items| ensures read[i] == texts[i] {
        assert items[i] == printed[i];
      }
    }
  }

  lemma ListReads(d: seq<Entry>, key: string, o: Option<seq<string>>)
    ensures StringsOf(d, key) == Ok(o) <==> ListMeans(Lookup(d, key), o)
  {
    var v := Lookup(d, key);
    if v.Some? && v.value.List? && AllTexts(v.value.items) && o.Some? {
      SameTexts(v.value.items, o.value);
    }
  }

  lemma ItemsRead(d: seq<Entry>, key: string, items: seq<string>)
    ensures ListOf(d, key) == Ok(items) <==> ItemsMean(Lookup(d, key), items)
  {
    ListReads(d, key, Some(items));
    ListReads(d, key, None);
  }

  lemma FlagReads(d: seq<Entry>, key: string, o: Option<bool>)
    ensures FlagOf(d, key) == Ok(o) <==> FlagMeans(Lookup(d, key), o)
  {}

  lemma SwitchReads(d: seq<Entry>, key: string, b: bool)
    ensures FlagOf(d, key).Ok? && Default(FlagOf(d, key).value, false) == b <==> SwitchMeans(Lookup(d, key), b)
  {}

  lemma SecondsRead(d: seq<Entry>, key: string, o: Option<nat>)
    ensures SecondsOf(d, key) == Ok(o) <==> SecondsMean(Lookup(d, key), o)
  {}

  lemma PairsRead(d: seq<Entry>, key: string, pairs: seq<(string, string)>)
    ensures StringMapOf(d, key) == Ok(pairs) <==> PairsMean(Lookup(d, key), pairs)
  {
    var v := Lookup(d, key);
    if v.Some? && v.value.Table? && forall i | 0 <= i < |v.value.entries| :: v.value.entries[i].value.Text? {
      var entries := v.value.entries;
      var read := StringMapOf(d, key).value;
      assert |read| == |entries|;
      if PairsMean(v, pairs) {
        forall i | 0 <= i < |pairs| ensures read[i] == pairs[i] {
          assert entries[i] == Entry(pairs[i].0, Value.Text(pairs[i].1));
        }
      }
      if read == pairs {
        forall i | 0 <= i < |pairs| ensures entries[i] == Entry(pairs[i].0, Value.Text(pairs[i].1)) {
          assert read[i] == pairs[i];
        }
      }
    } else if PairsMean(v, pairs) && v.Some? {
      forall i | 0 <= i < |pairs| ensures v.value.entries[i].value.Text? {}
    }
  }

  lemma ScheduleReads(d: seq<Entry>, o: Option<Schedule>)
    ensures ScheduleOf(d) == Ok(o) <==> ScheduleMeans(Lookup(d, "schedule"), o)
  {}

  lemma TransportReads(e: Entry, tr: Transport)
    ensures ParseTransport(e.key, e.value) == Ok(tr) <==> TransportMeans(e, tr)
  {
    if e.value.Table? {
      var d := e.value.entries;
      TextReads(d, "url_env", tr.urlEnv);
      TextReads(d, "title", tr.title);
      ListReads(d, "command", Some(tr.command));
      ListReads(d, "command", None);
      KindReads(d, tr.kind);
    }
  }

  lemma KindReads(d: seq<Entry>, kind: string)
    ensures forall command | StringOf(d, "type").Ok? ::
      var written := Default(StringOf(d, "type").value, "");
      KindMeans(Lookup(d, "type"), kind, command) <==>
        kind == if written != "" then written else if command != [] then "command" else "ntfy"
    ensures forall command | StringOf(d, "type").Err? :: !KindMeans(Lookup(d, "type"), kind, command)
  {}

  lemma {:induction false} TransportsRead(entries: seq<Entry>, notify: seq<Transport>)
    ensures ParseTransports(entries) == Ok(notify) <==> TablesMean(entries, notify)
  {
    if entries == [] {
    } else if notify == [] {
    } else {
      TransportReads(entries[0], notify[0]);
      TransportsRead(entries[1..], notify[1..]);
      FirstAndRest(entries, notify);
    }
  }

  lemma FirstAndRest(entries: seq<Entry>, notify: seq<Transport>)
    requires entries != [] && notify != []
    ensures TablesMean(entries, notify)
        <==> TransportMeans(entries[0], notify[0]) && TablesMean(entries[1..], notify[1..])
    ensures forall t, ts: seq<Transport> :: [t] + ts == notify <==> t == notify[0] && ts == notify[1..]
  {
    assert [notify[0]] + notify[1..] == notify;
    forall t, ts: seq<Transport> | [t] + ts == notify ensures t == notify[0] && ts == notify[1..] {
      assert ([t] + ts)[0] == t && ([t] + ts)[1..] == ts;
    }
    if TransportMeans(entries[0], notify[0]) && TablesMean(entries[1..], notify[1..]) {
      forall i | 0 <= i < |notify| ensures TransportMeans(entries[i], notify[i]) {
        assert i > 0 ==> entries[i] == entries[1..][i - 1] && notify[i] == notify[1..][i - 1];
      }
    }
  }

  lemma NotifyReads(d: seq<Entry>, notify: seq<Transport>)
    ensures NotifyOf(d) == Ok(notify) <==> NotifyMeans(Lookup(d, "notify"), notify)
  {
    var v := Lookup(d, "notify");
    if v.Some? && v.value.Table? {
      TransportsRead(v.value.entries, notify);
    }
  }

  // ---- The known keys, by name ----

  const KEYS := PRINTED + [Notify, StdinFile]

  const NAMES := [
    "schema_version", "name", "description", "command", "stdin", "cwd", "env", "env_files", "path_prepend",
    "schedule", "timeout", "jitter", "persistent", "lock", "summary_cmd", "on_failure", "on_success",
    "allow_full_access", "disabled", "notify", "stdin_file"]

  lemma NamesOfKeys(i: nat)
    requires i < |NAMES|
    ensures i < |KEYS| && KeyText(KEYS[i]) == NAMES[i]
  {}

  predicate LateKey(k: Key) {
    || k.Jitter? || k.Persistent? || k.Mutex? || k.SummaryCmd? || k.OnFailure?
    || k.OnSuccess? || k.AllowFullAccess? || k.Disabled? || k.Notify? || k.StdinFile?
  }

  lemma EarlyKeysHaveNames(k: Key)
    ensures KeyText(k) in NAMES || LateKey(k)
  {
    match k
    case SchemaVersion => assert NAMES[0] == KeyText(k);
    case Name => assert NAMES[1] == KeyText(k);
    case Description => assert NAMES[2] == KeyText(k);
    case Command => assert NAMES[3] == KeyText(k);
    case Stdin => assert NAMES[4] == KeyText(k);
    case Cwd => assert NAMES[5] == KeyText(k);
    case Env => assert NAMES[6] == KeyText(k);
    case EnvFiles => assert NAMES[7] == KeyText(k);
    case PathPrepend => assert NAMES[8] == KeyText(k);
    case When => assert NAMES[9] == KeyText(k);
    case Timeout => assert NAMES[10] == KeyText(k);
    case _ =>
  }

  lemma LateKeysHaveNames(k: Key)
    requires LateKey(k)
    ensures KeyText(k) in NAMES
  {
    match k
    case Jitter => assert NAMES[11] == KeyText(k);
    case Persistent => assert NAMES[12] == KeyText(k);
    case Mutex => assert NAMES[13] == KeyText(k);
    case SummaryCmd => assert NAMES[14] == KeyText(k);
    case OnFailure => assert NAMES[15] == KeyText(k);
    case OnSuccess => assert NAMES[16] == KeyText(k);
    case AllowFullAccess => assert NAMES[17] == KeyText(k);
    case Disabled => assert NAMES[18] == KeyText(k);
    case Notify => assert NAMES[19] == KeyText(k);
    case StdinFile => assert NAMES[20] == KeyText(k);
  }

  lemma EveryKeyHasAName(k: Key)
    ensures KeyText(k) in NAMES
  {
    EarlyKeysHaveNames(k);
    if LateKey(k) {
      LateKeysHaveNames(k);
    }
  }

  predicate NamesAKey(s: string) {
    exists k: Key :: KeyText(k) == s
  }

  lemma NameIsKnown(s: string)
    ensures NamesAKey(s) <==> s in NAMES
  {
    if s in NAMES {
      var j :| 0 <= j < |NAMES| && NAMES[j] == s;
      NamesOfKeys(j);
    }
    if NamesAKey(s) {
      var k: Key :| KeyText(k) == s;
      EveryKeyHasAName(k);
    }
  }

  /** Unknown keys are refused. */
  lemma KnownKeysByName(d: seq<Entry>)
    ensures KnownKeys(d) <==> forall i | 0 <= i < |d| :: d[i].key in NAMES
  {
    forall i | 0 <= i < |d| ensures d[i].key in NAMES <==> NamesAKey(d[i].key) {
      NameIsKnown(d[i].key);
    }
    assert KnownKeys(d) <==> forall i | 0 <= i < |d| :: NamesAKey(d[i].key);
  }

  // ---- The whole definition ----

  predicate TextsDescribe(d: seq<Entry>, t: Task) {
    && TextMeans(Lookup(d, "name"), Some(t.name)) && TextMeans(Lookup(d, "description"), Some(t.description))
    && TextMeans(Lookup(d, "stdin"), t.stdin) && TextMeans(Lookup(d, "stdin_file"), t.stdinFile)
    && TextMeans(Lookup(d, "cwd"), t.cwd) && TextMeans(Lookup(d, "lock"), t.mutex)
  }

  predicate ListsDescribe(d: seq<Entry>, t: Task) {
    && ItemsMean(Lookup(d, "command"), t.command) && ListMeans(Lookup(d, "summary_cmd"), t.summaryCmd)
    && ItemsMean(Lookup(d, "env_files"), t.envFiles) && ItemsMean(Lookup(d, "path_prepend"), t.pathPrepend)
    && ItemsMean(Lookup(d, "on_failure"), t.onFailure) && ItemsMean(Lookup(d, "on_success"), t.onSuccess)
  }

  predicate RestDescribes(d: seq<Entry>, t: Task) {
    && PairsMean(Lookup(d, "env"), t.env) && ScheduleMeans(Lookup(d, "schedule"), t.schedule)
    && NotifyMeans(Lookup(d, "notify"), t.notify)
    && SecondsMean(Lookup(d, "timeout"), t.timeoutSeconds)
    && (SecondsMean(Lookup(d, "jitter"), Some(t.jitterSeconds)) || (Lookup(d, "jitter").None? && t.jitterSeconds == 0))
    && FlagMeans(Lookup(d, "persistent"), t.persistent)
    && SwitchMeans(Lookup(d, "allow_full_access"), t.allowFullAccess) && SwitchMeans(Lookup(d, "disabled"), t.disabled)
  }

  /** The rules that span keys. */
  predicate Sensible(t: Task) {
    && ValidName(t.name) && t.command != [] && t.summaryCmd != Some([])
    && (t.stdin.None? || t.stdinFile.None?)
  }

  predicate Describes(d: seq<Entry>, t: Task) {
    && (forall i | 0 <= i < |d| :: d[i].key in NAMES) && Lookup(d, "schema_version") == Some(Value.Number(2))
    && TextsDescribe(d, t) && ListsDescribe(d, t) && RestDescribes(d, t) && Sensible(t)
  }

  lemma TextsRead(d: seq<Entry>, t: Task)
    ensures TextsDescribe(d, t) <==>
      && StringOf(d, "name") == Ok(Some(t.name)) && StringOf(d, "description") == Ok(Some(t.description))
      && StringOf(d, "stdin") == Ok(t.stdin) && StringOf(d, "stdin_file") == Ok(t.stdinFile)
      && StringOf(d, "cwd") == Ok(t.cwd) && StringOf(d, "lock") == Ok(t.mutex)
  {
    TextReads(d, "name", Some(t.name));
    TextReads(d, "description", Some(t.description));
    TextReads(d, "stdin", t.stdin);
    TextReads(d, "stdin_file", t.stdinFile);
    TextReads(d, "cwd", t.cwd);
    TextReads(d, "lock", t.mutex);
  }

  lemma ListsRead(d: seq<Entry>, t: Task)
    ensures ListsDescribe(d, t) <==>
      && ListOf(d, "command") == Ok(t.command) && StringsOf(d, "summary_cmd") == Ok(t.summaryCmd)
      && ListOf(d, "env_files") == Ok(t.envFiles) && ListOf(d, "path_prepend") == Ok(t.pathPrepend)
      && ListOf(d, "on_failure") == Ok(t.onFailure) && ListOf(d, "on_success") == Ok(t.onSuccess)
  {
    ItemsRead(d, "command", t.command);
    ListReads(d, "summary_cmd", t.summaryCmd);
    ItemsRead(d, "env_files", t.envFiles);
    ItemsRead(d, "path_prepend", t.pathPrepend);
    ItemsRead(d, "on_failure", t.onFailure);
    ItemsRead(d, "on_success", t.onSuccess);
  }

  predicate RestIsRead(d: seq<Entry>, t: Task) {
    && StringMapOf(d, "env") == Ok(t.env) && ScheduleOf(d) == Ok(t.schedule) && NotifyOf(d) == Ok(t.notify)
    && SecondsOf(d, "timeout") == Ok(t.timeoutSeconds)
    && SecondsOf(d, "jitter").Ok? && Default(SecondsOf(d, "jitter").value, 0) == t.jitterSeconds
    && FlagOf(d, "persistent") == Ok(t.persistent)
    && FlagOf(d, "allow_full_access").Ok? && Default(FlagOf(d, "allow_full_access").value, false) == t.allowFullAccess
    && FlagOf(d, "disabled").Ok? && Default(FlagOf(d, "disabled").value, false) == t.disabled
  }

  lemma RestReads(d: seq<Entry>, t: Task)
    ensures RestDescribes(d, t) <==> RestIsRead(d, t)
  {
    PairsRead(d, "env", t.env);
    ScheduleReads(d, t.schedule);
    NotifyReads(d, t.notify);
    SecondsRead(d, "timeout", t.timeoutSeconds);
    SecondsRead(d, "jitter", Some(t.jitterSeconds));
    SecondsRead(d, "jitter", None);
    FlagReads(d, "persistent", t.persistent);
    SwitchReads(d, "allow_full_access", t.allowFullAccess);
    SwitchReads(d, "disabled", t.disabled);
  }

  /** A table is accepted as the definition of a task if and only if it describes that task. */
  lemma ParsesWhatItDescribes(d: seq<Entry>, t: Task)
    ensures ParseTask(d) == Ok(t) <==> Describes(d, t)
  {
    TextsRead(d, t);
    ListsRead(d, t);
    RestReads(d, t);
    KnownKeysByName(d);
  }
}
