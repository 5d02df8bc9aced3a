/**
 * A whole definition: lines of bare keys with values, then one table per notification, and its
 * reader by sections "Keys", "Key/Value Pair" and "Table" of TOML v1.0.0.
 */
module TomlDocument {
  import opened Common
  import opened Text
  import opened TomlValue
  import opened TomlText

  datatype Section = Section(name: string, entries: seq<Entry>)

  // ---- Printing ----

  function PrintPair(e: Entry): string {
    e.key + (" = " + (Print(e.value) + "\n"))
  }

  function PrintPairs(entries: seq<Entry>): string {
    if entries == [] then "" else PrintPair(entries[0]) + PrintPairs(entries[1..])
  }

  function Header(name: string): string {
    "[notify." + (PrintString(name) + "]\n")
  }

  function PrintSections(sections: seq<Section>): string {
    if sections == [] then ""
    else "\n" + (Header(sections[0].name) + (PrintPairs(sections[0].entries) + PrintSections(sections[1..])))
  }

  // ---- Reading ----

  predicate BareChar(c: char) {
    'A' <= c <= 'Z' || 'a' <= c <= 'z' || IsDigit(c) || c == '_' || c == '-'
  }

  predicate BareKey(key: string) {
    key != "" && forall i | 0 <= i < |key| :: BareChar(key[i])
  }

  function KeyRun(s: string): (n: nat)
    ensures n <= |s|
  {
    if s == [] || !BareChar(s[0]) then 0 else 1 + KeyRun(s[1..])
  }

  /** The end of a line, which may be the end of the text. */
  function EndLine(s: string): (r: Option<string>)
    ensures r.Some? ==> |r.value| <= |s|
  {
    if Skip(s) == "" then Some("") else if Begins(Skip(s), '\n') then Some(Skip(s)[1..]) else None
  }

  function ReadPair(s: string): (r: Option<(Entry, string)>)
    ensures r.Some? ==> |r.value.1| < |s|
  {
    var n := KeyRun(s);
    if n == 0 then None
    else
      match ReadAssigned(s[n..])
      case None => None
      case Some(v) =>
        match EndLine(v.1)
        case None => None
        case Some(rest) => Some((Entry(s[..n], v.0), rest))
  }

  /** Pairs and empty lines, up to the next header or the end. */
  function ReadPairs(s: string): (r: Option<(seq<Entry>, string)>)
    ensures r.Some? ==> |r.value.1| <= |s| && (r.value.1 == "" || r.value.1[0] == '[')
    decreases |s|
  {
    if s == "" || s[0] == '[' then Some(([], s))
    else if s[0] == '\n' then ReadPairs(s[1..])
    else
      match ReadPair(s)
      case None => None
      case Some(e) =>
        match ReadPairs(e.1)
        case None => None
        case Some(more) => Some(([e.0] + more.0, more.1))
  }

  function ReadHeader(s: string): (r: Option<(string, string)>)
    ensures r.Some? ==> |r.value.1| < |s|
  {
    if !("[notify.\"" <= s) then None
    else
      match ReadString(s[9..])
      case None => None
      case Some(name) =>
        if !Begins(name.1, ']') then None
        else
          match EndLine(name.1[1..])
          case None => None
          case Some(rest) => Some((name.0, rest))
  }

  function ReadSections(s: string): Option<seq<Section>>
    decreases |s|
  {
    if s == "" then Some([])
    else
      match ReadHeader(s)
      case None => None
      case Some(h) =>
        match ReadPairs(h.1)
        case None => None
        case Some(pairs) =>
          match ReadSections(pairs.1)
          case None => None
          case Some(more) => Some([Section(h.0, pairs.0)] + more)
  }

  /** No table defines a key twice. */
  predicate WellKeyed(v: Value)
    decreases v
  {
    match v
    case List(items) => forall i | 0 <= i < |items| :: WellKeyed(items[i])
    case Table(entries) => DistinctKeys(entries) && forall i | 0 <= i < |entries| :: WellKeyed(entries[i].value)
    case _ => true
  }

  predicate DistinctKeys(entries: seq<Entry>) {
    forall i, j | 0 <= i < j < |entries| :: entries[i].key != entries[j].key
  }

  function Tables(sections: seq<Section>): (r: seq<Entry>)
    ensures |r| == |sections|
    ensures forall i | 0 <= i < |r| :: r[i] == Entry(sections[i].name, Table(sections[i].entries))
  {
    seq(|sections|, i requires 0 <= i < |sections| => Entry(sections[i].name, Table(sections[i].entries)))
  }

  /** The top-level table of a definition. */
  function Assemble(pairs: seq<Entry>, sections: seq<Section>): seq<Entry> {
    pairs + if sections == [] then [] else [Entry("notify", Table(Tables(sections)))]
  }

  function ReadDocument(s: string): Option<seq<Entry>> {
    match ReadPairs(s)
    case None => None
    case Some(pairs) =>
      match ReadSections(pairs.1)
      case None => None
      case Some(sections) =>
        if WellKeyed(Table(Assemble(pairs.0, sections))) then Some(Assemble(pairs.0, sections)) else None
  }

  // ---- Documents read back ----

  lemma {:induction false} KeyEnds(key: string, rest: string)
    requires (forall i | 0 <= i < |key| :: BareChar(key[i])) && (rest == "" || !BareChar(rest[0]))
    ensures KeyRun(key + rest) == |key|
  {
    if key == [] {
      assert key + rest == rest;
    } else {
      assert (key + rest)[1..] == key[1..] + rest;
      KeyEnds(key[1..], rest);
    }
  }

  lemma PairReads(e: Entry, rest: string)
    requires BareKey(e.key) && Printable(e.value)
    ensures ReadPair(e.key + (" = " + (Print(e.value) + ("\n" + rest))))
      == if Clean(e.value) then Some((e, rest)) else None
  {
    var t := Print(e.value) + ("\n" + rest);
    var s := e.key + (" = " + t);
    KeyEnds(e.key, " = " + t);
    assert s[..|e.key|] == e.key && s[|e.key|..] == " = " + t;
    PrintHead(e.value);
    AssignedReads(t);
    ValueReads(e.value, "\n" + rest);
    assert ("\n" + rest)[1..] == rest;
  }

  predicate EndsPairs(end: string) {
    end == "" || (|end| > 1 && end[0] == '\n' && end[1] == '[')
  }

  function AfterPairs(end: string): string
    requires EndsPairs(end)
  {
    if end == "" then "" else end[1..]
  }

  predicate CleanPairs(entries: seq<Entry>) {
    forall i | 0 <= i < |entries| :: Clean(entries[i].value)
  }

  predicate PrintablePairs(entries: seq<Entry>) {
    forall i | 0 <= i < |entries| :: Printable(entries[i].value)
  }

  predicate BareKeys(entries: seq<Entry>) {
    forall i | 0 <= i < |entries| :: BareKey(entries[i].key)
  }

  lemma PairsText(entries: seq<Entry>, end: string)
    requires entries != []
    ensures PrintPairs(entries) + end
      == entries[0].key + (" = " + (Print(entries[0].value) + ("\n" + (PrintPairs(entries[1..]) + end))))
  {
    PairRegroup(entries[0].key, Print(entries[0].value), PrintPairs(entries[1..]), end);
  }

  lemma PairRegroup(k: string, v: string, m: string, end: string)
    ensures k + (" = " + (v + "\n")) + m + end == k + (" = " + (v + ("\n" + (m + end))))
  {}

  lemma CleanPairsHead(entries: seq<Entry>)
    requires entries != []
    ensures CleanPairs(entries) <==> Clean(entries[0].value) && CleanPairs(entries[1..])
  {
    assert forall i | 0 < i < |entries| :: entries[i] == entries[1..][i - 1];
  }

  lemma PairsGoOn(s: string, e: Entry, rest: string)
    requires s != "" && BareChar(s[0]) && ReadPair(s) == Some((e, rest))
    ensures var r := ReadPairs(rest); ReadPairs(s) == if r.None? then None else Some(([e] + r.value.0, r.value.1))
  {}

  lemma PairsFail(s: string)
    requires s != "" && BareChar(s[0]) && ReadPair(s).None?
    ensures ReadPairs(s).None?
  {}

  lemma {:induction false} PairsRead(entries: seq<Entry>, end: string)
    requires BareKeys(entries) && PrintablePairs(entries) && EndsPairs(end)
    ensures ReadPairs(PrintPairs(entries) + end)
      == if CleanPairs(entries) then Some((entries, AfterPairs(end))) else None
  {
    if entries == [] {
      assert PrintPairs(entries) + end == end;
    } else {
      var s, e, rest := PrintPairs(entries) + end, entries[0], PrintPairs(entries[1..]) + end;
      PairsText(entries, end);
      PairReads(e, rest);
      PairsRead(entries[1..], end);
      CleanPairsHead(entries);
      assert s[0] == e.key[0] && BareChar(e.key[0]);
      if Clean(e.value) {
        PairsGoOn(s, e, rest);
        assert entries == [e] + entries[1..];
      } else {
        PairsFail(s);
      }
    }
  }

  lemma HeaderReads(name: string, rest: string)
    ensures ReadHeader(Header(name) + rest) == if DELETE !in name then Some((name, rest)) else None
  {
    var s := Header(name) + rest;
    HeaderRegroup(PrintChars(name), rest);
    assert s[..9] == "[notify.\"" && s[9..] == PrintChars(name) + "\"" + ("]" + ("\n" + rest));
    StringReads(name, "]" + ("\n" + rest));
    assert ("]" + ("\n" + rest))[1..] == "\n" + rest;
    assert ("\n" + rest)[1..] == rest;
  }

  lemma HeaderRegroup(k: string, rest: string)
    ensures "[notify." + ("\"" + k + "\"" + "]\n") + rest == "[notify.\"" + (k + "\"" + ("]" + ("\n" + rest)))
  {}

  predicate CleanSections(sections: seq<Section>) {
    forall i | 0 <= i < |sections| :: CleanSection(sections[i])
  }

  predicate PlainSections(sections: seq<Section>) {
    forall i | 0 <= i < |sections| :: BareKeys(sections[i].entries) && PrintablePairs(sections[i].entries)
  }

  lemma SectionsEndPairs(sections: seq<Section>)
    ensures EndsPairs(PrintSections(sections))
  {
    if sections != [] {
      assert PrintSections(sections)[1] == Header(sections[0].name)[0] == '[';
    }
  }

  predicate CleanSection(section: Section) {
    DELETE !in section.name && CleanPairs(section.entries)
  }

  lemma SectionsHead(sections: seq<Section>)
    requires sections != []
    ensures CleanSections(sections) <==> CleanSection(sections[0]) && CleanSections(sections[1..])
    ensures sections == [sections[0]] + sections[1..]
  {
    assert forall i | 0 < i < |sections| :: sections[i] == sections[1..][i - 1];
  }

  lemma SectionsGoOn(s: string, h: (string, string), pairs: (seq<Entry>, string))
    requires s != "" && ReadHeader(s) == Some(h) && ReadPairs(h.1) == Some(pairs)
    ensures var r := ReadSections(pairs.1);
      ReadSections(s) == if r.None? then None else Some([Section(h.0, pairs.0)] + r.value)
  {}

  lemma SectionsFail(s: string)
    requires s != "" && (ReadHeader(s).None? || ReadPairs(ReadHeader(s).value.1).None?)
    ensures ReadSections(s).None?
  {}

  /** One section before text that its pairs end at. */
  lemma SectionStep(section: Section, end: string)
    requires BareKeys(section.entries) && PrintablePairs(section.entries) && EndsPairs(end)
    ensures var s, r := Header(section.name) + (PrintPairs(section.entries) + end), ReadSections(AfterPairs(end));
      ReadSections(s) == if CleanSection(section) && r.Some? then Some([section] + r.value) else None
  {
    var body := PrintPairs(section.entries) + end;
    var s := Header(section.name) + body;
    HeaderReads(section.name, body);
    PairsRead(section.entries, end);
    if CleanSection(section) {
      SectionsGoOn(s, (section.name, body), (section.entries, AfterPairs(end)));
    } else {
      SectionsFail(s);
    }
  }

  lemma {:induction false} SectionsRead(sections: seq<Section>)
    requires PlainSections(sections)
    ensures EndsPairs(PrintSections(sections))
    ensures ReadSections(AfterPairs(PrintSections(sections)))
      == if CleanSections(sections) then Some(sections) else None
  {
    SectionsEndPairs(sections);
    if sections != [] {
      SectionsRead(sections[1..]);
      SectionStep(sections[0], PrintSections(sections[1..]));
      SectionsHead(sections);
      PrintedSections(sections);
    }
  }

  lemma PrintedSections(sections: seq<Section>)
    requires sections != [] && EndsPairs(PrintSections(sections))
    ensures AfterPairs(PrintSections(sections))
      == Header(sections[0].name) + (PrintPairs(sections[0].entries) + PrintSections(sections[1..]))
  {}

  /** A definition is read back from its text if and only if no string in it contains U+007F. */
  lemma DocumentReads(pairs: seq<Entry>, sections: seq<Section>)
    requires BareKeys(pairs) && PrintablePairs(pairs) && PlainSections(sections)
    requires WellKeyed(Table(Assemble(pairs, sections)))
    ensures ReadDocument(PrintPairs(pairs) + PrintSections(sections))
      == if CleanPairs(pairs) && CleanSections(sections) then Some(Assemble(pairs, sections)) else None
  {
    SectionsRead(sections);
    PairsRead(pairs, PrintSections(sections));
  }
}
