/** The printer of task definitions as it runs: line by line, against the text it has to produce. */
module DefinitionPrinter {
  import opened Common
  import opened TomlValue
  import opened TomlText
  import opened TomlDocument
  import opened TaskSpec
  import opened Definition

  /** Lines, each ended by a line feed. */
  function Terminated(lines: seq<string>): string {
    if lines == [] then "" else lines[0] + "\n" + Terminated(lines[1..])
  }

  function Joined(lines: seq<string>): string {
    if lines == [] then "" else if |lines| == 1 then lines[0] else lines[0] + "\n" + Joined(lines[1..])
  }

  lemma {:induction false} JoinedIsTerminated(lines: seq<string>)
    requires lines != []
    ensures Joined(lines) + "\n" == Terminated(lines)
  {
    if |lines| == 1 {
      assert Terminated(lines) == lines[0] + "\n" + "";
    } else {
      JoinedIsTerminated(lines[1..]);
      assert lines[0] + "\n" + Joined(lines[1..]) + "\n" == lines[0] + "\n" + (Joined(lines[1..]) + "\n");
    }
  }

  lemma {:induction false} TerminatedAppends(a: seq<string>, b: seq<string>)
    ensures Terminated(a + b) == Terminated(a) + Terminated(b)
  {
    if a == [] {
      assert a + b == b;
    } else {
      assert (a + b)[1..] == a[1..] + b;
      TerminatedAppends(a[1..], b);
    }
  }

  function PairLine(key: string, v: Value): string {
    key + " = " + Print(v)
  }

  lemma PairRegroup(key: string, value: string)
    ensures key + " = " + value + "\n" + "" == key + (" = " + (value + ("\n" + "")))
  {}

  lemma PairLineIs(key: string, v: Value)
    ensures Terminated([PairLine(key, v)]) == PrintPairs([Entry(key, v)])
  {
    assert [PairLine(key, v)][1..] == [] && [Entry(key, v)][1..] == [];
    PairRegroup(key, Print(v));
  }

  lemma {:induction false} PairsAppend(a: seq<Entry>, b: seq<Entry>)
    ensures PrintPairs(a + b) == PrintPairs(a) + PrintPairs(b)
  {
    if a == [] {
      assert a + b == b;
    } else {
      assert (a + b)[1..] == a[1..] + b;
      PairsAppend(a[1..], b);
    }
  }

  function OptionalLines(key: string, v: Option<Value>): seq<string> {
    if v.None? then [] else [PairLine(key, v.value)]
  }

  /** Lines that print some pairs, with one more optional pair. */
  lemma OneMoreLine(lines: seq<string>, entries: seq<Entry>, key: string, v: Option<Value>)
    requires Terminated(lines) == PrintPairs(entries)
    ensures Terminated(lines + OptionalLines(key, v)) == PrintPairs(entries + Optional(key, v))
  {
    TerminatedAppends(lines, OptionalLines(key, v));
    PairsAppend(entries, Optional(key, v));
    if v.Some? {
      PairLineIs(key, v.value);
    }
  }

  lemma FieldLine(t: Task, lines: seq<string>, keys: seq<Key>, k: Key)
    requires Terminated(lines) == PrintPairs(Present(t, keys))
    ensures Terminated(lines + OptionalLines(KeyText(k), Field(t, k))) == PrintPairs(Present(t, keys + [k]))
  {
    OneMoreLine(lines, Present(t, keys), KeyText(k), Field(t, k));
    PresentOne(t, keys, k);
  }

  lemma PresentOne(t: Task, keys: seq<Key>, k: Key)
    ensures Present(t, keys + [k]) == Present(t, keys) + Optional(KeyText(k), Field(t, k))
  {
    PresentAppends(t, keys, [k]);
    assert [k][1..] == [];
    assert Optional(KeyText(k), Field(t, k)) + [] == Optional(KeyText(k), Field(t, k));
  }

  /** The lines of one notification after its header. */
  function TransportLines(tr: Transport): seq<string> {
    OptionalLines("type", Some(Value.Text(tr.kind)))
    + OptionalLines("url_env", TextIf(tr.urlEnv))
    + OptionalLines("command", StringsUnlessEmpty(tr.command))
    + OptionalLines("title", TextIf(tr.title))
  }

  lemma TransportLinesPrint(tr: Transport)
    ensures Terminated(TransportLines(tr)) == PrintPairs(TransportEntries(tr))
  {
    var kind, urlEnv := Some(Value.Text(tr.kind)), TextIf(tr.urlEnv);
    var command, title := StringsUnlessEmpty(tr.command), TextIf(tr.title);
    var a, b := Optional("type", kind), Optional("url_env", urlEnv);
    var c, d := Optional("command", command), Optional("title", title);
    assert [] + a == a && [] + OptionalLines("type", kind) == OptionalLines("type", kind);
    OneMoreLine([], [], "type", kind);
    OneMoreLine(OptionalLines("type", kind), a, "url_env", urlEnv);
    OneMoreLine(OptionalLines("type", kind) + OptionalLines("url_env", urlEnv), a + b, "command", command);
    OneMoreLine(OptionalLines("type", kind) + OptionalLines("url_env", urlEnv) + OptionalLines("command", command),
                a + b + c, "title", title);
    assert a + b + c + d == a + (b + (c + d));
  }

  function HeaderLines(name: string): seq<string> {
    ["", "[notify." + PrintString(name) + "]"]
  }

  lemma HeaderRegroup(name: string)
    ensures "" + "\n" + ("[notify." + name + "]" + "\n" + "") == "\n" + ("[notify." + (name + "]\n"))
  {}

  lemma HeaderLinesPrint(name: string)
    ensures Terminated(HeaderLines(name)) == "\n" + Header(name)
  {
    var line := "[notify." + PrintString(name) + "]";
    assert HeaderLines(name)[1..] == [line] && [line][1..] == [];
    assert Terminated([line]) == line + "\n" + "";
    assert Terminated(HeaderLines(name)) == "" + "\n" + Terminated([line]);
    HeaderRegroup(PrintString(name));
  }

  lemma {:induction false} SectionsAppend(a: seq<Section>, last: Section)
    ensures PrintSections(a + [last]) == PrintSections(a) + ("\n" + (Header(last.name) + PrintPairs(last.entries)))
  {
    var tail := "\n" + (Header(last.name) + PrintPairs(last.entries));
    if a == [] {
      assert [] + [last] == [last] && [last][1..] == [];
      assert PrintPairs(last.entries) + "" == PrintPairs(last.entries);
    } else {
      SectionsAppend(a[1..], last);
      assert (a + [last])[1..] == a[1..] + [last];
      SectionRegroup(Header(a[0].name), PrintPairs(a[0].entries), PrintSections(a[1..]), tail);
    }
  }

  lemma SectionRegroup(h: string, pairs: string, rest: string, tail: string)
    ensures "\n" + (h + (pairs + (rest + tail))) == "\n" + (h + (pairs + rest)) + tail
  {}

  lemma SectionLines(fields: string, lines: seq<string>, before: seq<Section>, tr: Transport)
    requires Terminated(lines) == fields + PrintSections(before)
    ensures Terminated(lines + HeaderLines(tr.name) + TransportLines(tr))
      == fields + PrintSections(before + [Section(tr.name, TransportEntries(tr))])
  {
    var last := Section(tr.name, TransportEntries(tr));
    TerminatedAppends(lines + HeaderLines(tr.name), TransportLines(tr));
    TerminatedAppends(lines, HeaderLines(tr.name));
    HeaderLinesPrint(tr.name);
    TransportLinesPrint(tr);
    SectionsAppend(before, last);
    LinesRegroup(fields, PrintSections(before), Header(tr.name), PrintPairs(last.entries));
  }

  lemma LinesRegroup(fields: string, before: string, h: string, pairs: string)
    ensures fields + before + ("\n" + h) + pairs == fields + (before + ("\n" + (h + pairs)))
  {}

  lemma OneMoreKey(keys: seq<Key>, i: nat)
    requires i < |keys|
    ensures keys[..i + 1] == keys[..i] + [keys[i]]
  {}

  lemma NextField(t: Task, lines: seq<string>, i: nat)
    requires i < |PRINTED| && Terminated(lines) == PrintPairs(Present(t, PRINTED[..i]))
    ensures Terminated(lines + OptionalLines(KeyText(PRINTED[i]), Field(t, PRINTED[i])))
      == PrintPairs(Present(t, PRINTED[..i + 1]))
  {
    FieldLine(t, lines, PRINTED[..i], PRINTED[i]);
    OneMoreKey(PRINTED, i);
  }

  lemma OneMoreSection(notify: seq<Transport>, i: nat)
    requires i < |notify|
    ensures Sections(notify[..i + 1])
      == Sections(notify[..i]) + [Section(notify[i].name, TransportEntries(notify[i]))]
  {}

  lemma NextSection(t: Task, fields: string, lines: seq<string>, i: nat)
    requires i < |t.notify| && Terminated(lines) == fields + PrintSections(Sections(t.notify[..i]))
    ensures var tr := t.notify[i];
      Terminated(lines + HeaderLines(tr.name) + TransportLines(tr))
        == fields + PrintSections(Sections(t.notify[..i + 1]))
  {
    SectionLines(fields, lines, Sections(t.notify[..i]), t.notify[i]);
    OneMoreSection(t.notify, i);
  }

  /** The tenth field, the schedule, decides whether the task is printable. */
  lemma PrintableSoFar(t: Task, i: nat)
    requires i < |PRINTED|
    ensures var v := Field(t, PRINTED[i]);
      && (v.Some? && !Printable(v.value) ==> !PrintableTask(t))
      && (i == 9 && (v.None? || Printable(v.value)) ==> PrintableTask(t))
  {
    if Field(t, PRINTED[i]).Some? {
      FieldIsPrintable(t, PRINTED[i]);
    }
  }

  lemma AllPrinted(t: Task)
    ensures PRINTED[..|PRINTED|] == PRINTED && t.notify[..|t.notify|] == t.notify
    ensures Field(t, PRINTED[0]).Some?
  {}

  /** Line by line: the fields that are present, then a table for each notification; an error on other values. */
  method DumpTask(t: Task) returns (r: Result<string>)
    ensures r == Dump(t)
  {
    AllPrinted(t);
    var lines: seq<string> := [];
    for i := 0 to |PRINTED|
      invariant Terminated(lines) == PrintPairs(Present(t, PRINTED[..i]))
      invariant i > 0 ==> lines != []
      invariant i > 9 ==> PrintableTask(t)
    {
      var v := Field(t, PRINTED[i]);
      PrintableSoFar(t, i);
      if v.Some? && !Printable(v.value) {
        return Err;
      }
      NextField(t, lines, i);
      lines := lines + OptionalLines(KeyText(PRINTED[i]), Field(t, PRINTED[i]));
    }
    ghost var fields := Terminated(lines);
    for i := 0 to |t.notify|
      invariant Terminated(lines) == fields + PrintSections(Sections(t.notify[..i]))
      invariant lines != []
    {
      NextSection(t, fields, lines, i);
      lines := lines + HeaderLines(t.notify[i].name) + TransportLines(t.notify[i]);
    }
    JoinedIsTerminated(lines);
    return Ok(Joined(lines) + "\n");
  }
}
