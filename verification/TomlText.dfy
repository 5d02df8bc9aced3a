/**
 * The text of a task definition: the printer of values, and a reader of the forms it prints by
 * TOML v1.0.0 (sections "String", "Integer", "Boolean", "Array", "Inline Table" and "Table").
 */
module TomlText {
  import opened Common
  import opened Text
  import opened TomlValue
  import Duration

  // ---- Printing ----

  const DELETE := '\U{7f}'

  function HexDigit(n: nat): char
    requires n < 16
  {
    if n < 10 then ('0' as int + n) as char else ('a' as int + n - 10) as char
  }

  /** One character of a string; U+007F is left as it is. */
  function PrintChar(c: char): string {
    if c == '"' then "\\\""
    else if c == '\\' then "\\\\"
    else if c == '\n' then "\\n"
    else if c == '\r' then "\\r"
    else if c == '\t' then "\\t"
    else if c == '\U{8}' then "\\b"
    else if c == '\U{c}' then "\\f"
    else if c < ' ' then "\\u00" + [HexDigit(c as int / 16), HexDigit(c as int % 16)]
    else [c]
  }

  function PrintChars(s: string): string {
    if s == [] then [] else PrintChar(s[0]) + PrintChars(s[1..])
  }

  function PrintString(s: string): string {
    "\"" + PrintChars(s) + "\""
  }

  /** Every value the printer can emit; it raises an error on the others. */
  predicate Printable(v: Value)
    decreases v
  {
    match v
    case List(items) => forall i | 0 <= i < |items| :: Printable(items[i])
    case Table(entries) => forall i | 0 <= i < |entries| :: Printable(entries[i].value)
    case Other(_) => false
    case _ => true
  }

  function Print(v: Value): string
    decreases v
  {
    match v
    case Text(s) => PrintString(s)
    case Flag(b) => if b then "true" else "false"
    case Number(n) => PrintInt(n)
    case List(items) => "[" + (PrintItems(items) + "]")
    case Table(entries) => "{ " + (PrintEntries(entries) + " }")
    case Other(literal) => literal
  }

  function PrintItems(items: seq<Value>): string
    decreases items, 1
  {
    if items == [] then "" else Print(items[0]) + MoreItems(items[1..])
  }

  function MoreItems(items: seq<Value>): string
    decreases items, 2
  {
    if items == [] then "" else ", " + PrintItems(items)
  }

  function PrintEntries(entries: seq<Entry>): string
    decreases entries, 1
  {
    if entries == [] then ""
    else PrintString(entries[0].key) + (" = " + (Print(entries[0].value) + MoreEntries(entries[1..])))
  }

  function MoreEntries(entries: seq<Entry>): string
    decreases entries, 2
  {
    if entries == [] then "" else ", " + PrintEntries(entries)
  }

  // ---- Reading strings ----

  predicate IsHex(c: char) {
    IsDigit(c) || 'a' <= c <= 'f' || 'A' <= c <= 'F'
  }

  function HexValue(c: char): (n: nat)
    requires IsHex(c)
    ensures n < 16
  {
    if IsDigit(c) then DigitValue(c)
    else if c >= 'a' then c as int - 'a' as int + 10
    else c as int - 'A' as int + 10
  }

  /** Characters that must not appear in a string as they are. */
  predicate Control(c: char) {
    (c < ' ' && c != '\t') || c == DELETE
  }

  /** After a backslash. */
  function ReadEscape(s: string): (r: Option<(char, string)>)
    ensures r.Some? ==> |r.value.1| < |s|
  {
    if s == [] then None
    else if s[0] == '"' || s[0] == '\\' then Some((s[0], s[1..]))
    else if s[0] == 'n' then Some(('\n', s[1..]))
    else if s[0] == 'r' then Some(('\r', s[1..]))
    else if s[0] == 't' then Some(('\t', s[1..]))
    else if s[0] == 'b' then Some(('\U{8}', s[1..]))
    else if s[0] == 'f' then Some(('\U{c}', s[1..]))
    else if s[0] == 'u' && |s| >= 5 && forall i | 1 <= i < 5 :: IsHex(s[i]) then
      var code := ((HexValue(s[1]) * 16 + HexValue(s[2])) * 16 + HexValue(s[3])) * 16 + HexValue(s[4]);
      if 0xD800 <= code < 0xE000 then None else Some((code as char, s[5..]))
    else None
  }

  /** After the opening quote. */
  function ReadString(s: string): (r: Option<(string, string)>)
    ensures r.Some? ==> |r.value.1| < |s|
    decreases |s|
  {
    if s == [] then None
    else if s[0] == '"' then Some(("", s[1..]))
    else if s[0] == '\\' then
      match ReadEscape(s[1..])
      case None => None
      case Some(e) => Prepend(e.0, ReadString(e.1))
    else if Control(s[0]) then None
    else Prepend(s[0], ReadString(s[1..]))
  }

  // ---- Reading values ----

  function Skip(s: string): (r: string)
    ensures |r| <= |s|
  {
    if s != [] && (s[0] == ' ' || s[0] == '\t') then Skip(s[1..]) else s
  }

  predicate Begins(s: string, c: char) {
    s != [] && s[0] == c
  }

  /** A decimal number without leading zeros. */
  function ReadNat(s: string): (r: Option<(nat, string)>)
    ensures r.Some? ==> |r.value.1| < |s|
  {
    var n := Duration.DigitRun(s);
    if n == 0 || (n > 1 && s[0] == '0') then None else Some((ParseNat(s[..n]), s[n..]))
  }

  function ReadValue(s: string): (r: Option<(Value, string)>)
    ensures r.Some? ==> |r.value.1| < |s|
    decreases |s|, 0
  {
    if s == [] then None
    else if s[0] == '"' then
      match ReadString(s[1..])
      case None => None
      case Some(t) => Some((Text(t.0), t.1))
    else if s[0] == '[' then
      var inner := Skip(s[1..]);
      if Begins(inner, ']') then Some((List([]), inner[1..]))
      else
        match ReadItems(inner)
        case None => None
        case Some(items) => Some((List(items.0), items.1))
    else if s[0] == '{' then
      var inner := Skip(s[1..]);
      if Begins(inner, '}') then Some((Table([]), inner[1..]))
      else
        match ReadEntries(inner)
        case None => None
        case Some(entries) => Some((Table(entries.0), entries.1))
    else ReadScalar(s)
  }

  function ReadScalar(s: string): (r: Option<(Value, string)>)
    ensures r.Some? ==> |r.value.1| < |s|
  {
    if "true" <= s then Some((Flag(true), s[4..]))
    else if "false" <= s then Some((Flag(false), s[5..]))
    else if Begins(s, '-') then
      match ReadNat(s[1..])
      case None => None
      case Some(n) => var k: int := n.0; Some((Number(-k), n.1))
    else
      match ReadNat(s)
      case None => None
      case Some(n) => Some((Number(n.0), n.1))
  }

  /** Values up to the closing bracket. */
  function ReadItems(s: string): (r: Option<(seq<Value>, string)>)
    ensures r.Some? ==> |r.value.1| < |s|
    decreases |s|, 1
  {
    match ReadValue(s)
    case None => None
    case Some(v) =>
      var after := Skip(v.1);
      if Begins(after, ']') then Some(([v.0], after[1..]))
      else if Begins(after, ',') then
        match ReadItems(Skip(after[1..]))
        case None => None
        case Some(items) => Some(([v.0] + items.0, items.1))
      else None
  }

  /** After the key: an equals sign and a value. */
  function ReadAssigned(s: string): (r: Option<(Value, string)>)
    ensures r.Some? ==> |r.value.1| < |s|
    decreases |s|, 1
  {
    if Begins(Skip(s), '=') then ReadValue(Skip(Skip(s)[1..])) else None
  }

  /** A quoted key with its value. */
  function ReadEntry(s: string): (r: Option<(Entry, string)>)
    ensures r.Some? ==> |r.value.1| < |s|
    decreases |s|, 1
  {
    if !Begins(s, '"') then None
    else
      match ReadString(s[1..])
      case None => None
      case Some(key) =>
        match ReadAssigned(key.1)
        case None => None
        case Some(v) => Some((Entry(key.0, v.0), v.1))
  }

  /** Entries up to the closing brace. */
  function ReadEntries(s: string): (r: Option<(seq<Entry>, string)>)
    ensures r.Some? ==> |r.value.1| < |s|
    decreases |s|, 2
  {
    match ReadEntry(s)
    case None => None
    case Some(e) =>
      var after := Skip(e.1);
      if Begins(after, '}') then Some(([e.0], after[1..]))
      else if Begins(after, ',') then
        match ReadEntries(Skip(after[1..]))
        case None => None
        case Some(entries) => Some(([e.0] + entries.0, entries.1))
      else None
  }

  // ---- Strings read back ----

  /** No string in the value, keys included, contains U+007F. */
  predicate Clean(v: Value)
    decreases v
  {
    match v
    case Text(s) => DELETE !in s
    case Flag(_) => true
    case Number(_) => true
    case List(items) => forall i | 0 <= i < |items| :: Clean(items[i])
    case Table(entries) => CleanEntries(entries)
    case Other(_) => true
  }

  predicate CleanEntry(e: Entry)
    decreases e
  {
    DELETE !in e.key && Clean(e.value)
  }

  predicate CleanEntries(entries: seq<Entry>)
    decreases entries
  {
    forall i | 0 <= i < |entries| :: CleanEntry(entries[i])
  }

  lemma ControlEscapeReads(c: char, after: string)
    requires c < ' ' && PrintChar(c)[1] == 'u'
    ensures ReadEscape(PrintChar(c)[1..] + after) == Some((c, after))
  {
    var s := PrintChar(c)[1..] + after;
    var hi, lo := c as int / 16, c as int % 16;
    assert s[1] == '0' && s[2] == '0' && s[3] == HexDigit(hi) && s[4] == HexDigit(lo);
    assert HexValue(s[3]) == hi && HexValue(s[4]) == lo;
    assert s[5..] == after;
  }

  lemma EscapeReads(c: char, after: string)
    requires PrintChar(c)[0] == '\\'
    ensures ReadEscape(PrintChar(c)[1..] + after) == Some((c, after))
  {
    if PrintChar(c)[1] == 'u' {
      ControlEscapeReads(c, after);
    } else {
      assert (PrintChar(c)[1..] + after)[1..] == after;
    }
  }

  lemma CharReads(c: char, after: string)
    ensures ReadString(PrintChar(c) + after) == if c == DELETE then None else Prepend(c, ReadString(after))
  {
    var s := PrintChar(c) + after;
    if PrintChar(c)[0] == '\\' {
      EscapeReads(c, after);
      assert s[1..] == PrintChar(c)[1..] + after;
    } else {
      assert s[1..] == after;
    }
  }

  lemma HeadRegroup(first: string, more: string, rest: string)
    ensures first + more + "\"" + rest == first + (more + "\"" + rest)
  {}

  lemma {:induction false} StringReads(t: string, rest: string)
    ensures ReadString(PrintChars(t) + "\"" + rest) == if DELETE !in t then Some((t, rest)) else None
  {
    if t == [] {
      assert ([] + "\"" + rest)[1..] == rest;
    } else {
      HeadRegroup(PrintChar(t[0]), PrintChars(t[1..]), rest);
      CharReads(t[0], PrintChars(t[1..]) + "\"" + rest);
      StringReads(t[1..], rest);
      assert t == [t[0]] + t[1..];
    }
  }

  // ---- Values read back ----

  /** What may follow a value. */
  predicate Delimited(rest: string) {
    rest != "" && (rest[0] == ',' || rest[0] == ']' || rest[0] == ' ' || rest[0] == '\n')
  }

  predicate Blank(c: char) {
    c == ' ' || c == '\t'
  }

  lemma PrintHead(v: Value)
    requires !v.Other?
    ensures Print(v) != "" && !Blank(Print(v)[0]) && Print(v)[0] != ']'
  {}

  lemma SkipNone(s: string)
    requires s != "" && !Blank(s[0])
    ensures Skip(s) == s
  {}

  lemma SkipOne(s: string)
    requires s != "" && !Blank(s[0])
    ensures Skip(" " + s) == s
  {
    assert (" " + s)[1..] == s;
  }

  lemma TextReads(t: string, rest: string)
    ensures ReadValue(PrintString(t) + rest) == if DELETE !in t then Some((Text(t), rest)) else None
  {
    var s := PrintString(t) + rest;
    assert s[1..] == PrintChars(t) + "\"" + rest;
    StringReads(t, rest);
  }

  lemma FlagReads(b: bool, rest: string)
    ensures ReadValue(Print(Flag(b)) + rest) == Some((Flag(b), rest))
  {
    var s := Print(Flag(b)) + rest;
    if b {
      assert s[..4] == "true" && s[4..] == rest;
    } else {
      assert s[0] == 'f' && s[..5] == "false" && s[5..] == rest;
      assert !("true" <= s);
    }
  }

  lemma {:induction false} NoLeadingZero(n: nat)
    ensures |PrintNat(n)| > 1 ==> PrintNat(n)[0] != '0'
    ensures n > 0 ==> PrintNat(n)[0] != '0'
  {
    if n >= 10 {
      NoLeadingZero(n / 10);
      assert PrintNat(n)[0] == PrintNat(n / 10)[0];
    }
  }

  lemma NatReads(n: nat, rest: string)
    requires Delimited(rest)
    ensures ReadNat(PrintNat(n) + rest) == Some((n, rest))
  {
    var s := PrintNat(n) + rest;
    Duration.RunEnds(PrintNat(n), rest);
    NoLeadingZero(n);
    assert s[..|PrintNat(n)|] == PrintNat(n) && s[|PrintNat(n)|..] == rest;
  }

  lemma NotPrefix(p: string, s: string)
    requires p != "" && (s == "" || p[0] != s[0])
    ensures !(p <= s)
  {}

  lemma NegativeReads(s: string, n: int, rest: string)
    requires n < 0 && Begins(s, '-') && ReadNat(s[1..]) == Some((-n, rest))
    ensures ReadValue(s) == Some((Number(n), rest))
  {
    NotPrefix("true", s);
    NotPrefix("false", s);
  }

  lemma PositiveReads(s: string, n: nat, rest: string)
    requires ReadNat(s) == Some((n, rest))
    ensures ReadValue(s) == Some((Number(n), rest))
  {
    assert IsDigit(s[..Duration.DigitRun(s)][0]);
    NotPrefix("true", s);
    NotPrefix("false", s);
  }

  lemma NumberReads(n: int, rest: string)
    requires Delimited(rest)
    ensures ReadValue(Print(Number(n)) + rest) == Some((Number(n), rest))
  {
    if n < 0 {
      var s := "-" + PrintNat(-n) + rest;
      assert s[1..] == PrintNat(-n) + rest;
      NatReads(-n, rest);
      NegativeReads(s, n, rest);
    } else {
      NatReads(n, rest);
      PositiveReads(PrintNat(n) + rest, n, rest);
    }
  }

  // ---- Lists ----

  predicate CleanItems(items: seq<Value>) {
    forall i | 0 <= i < |items| :: Clean(items[i])
  }

  /** The value is read back from its text, or not at all if it is not clean. */
  predicate ReadsBackBefore(v: Value, rest: string) {
    ReadValue(Print(v) + rest) == if Clean(v) then Some((v, rest)) else None
  }

  predicate ItemsReadBefore(items: seq<Value>, end: string)
    requires end != ""
  {
    ReadItems(PrintItems(items) + end) == if CleanItems(items) then Some((items, end[1..])) else None
  }

  lemma Regroup(a: string, b: string, c: string)
    ensures a + b + c == a + (b + c)
  {}

  lemma ItemsText(items: seq<Value>, end: string)
    requires items != [] && !items[0].Other?
    ensures PrintItems(items) + end == Print(items[0]) + (MoreItems(items[1..]) + end)
    ensures PrintItems(items) != "" && !Blank(PrintItems(items)[0]) && PrintItems(items)[0] != ']'
  {
    PrintHead(items[0]);
    Regroup(Print(items[0]), MoreItems(items[1..]), end);
  }

  lemma ItemsEnd(s: string, v: Value, end: string)
    requires ReadValue(s) == Some((v, end)) && Begins(end, ']')
    ensures ReadItems(s) == Some(([v], end[1..]))
  {
    SkipNone(end);
  }

  lemma ItemsGoOn(s: string, v: Value, more: string)
    requires ReadValue(s) == Some((v, ", " + more)) && more != "" && !Blank(more[0])
    ensures var r := ReadItems(more);
      ReadItems(s) == if r.None? then None else Some(([v] + r.value.0, r.value.1))
  {
    SkipNone(", " + more);
    assert (", " + more)[1..] == " " + more;
    SkipOne(more);
  }

  lemma ItemsStep(items: seq<Value>, end: string)
    requires items != [] && Begins(end, ']') && Printable(List(items))
    requires ReadsBackBefore(items[0], MoreItems(items[1..]) + end)
    requires |items| > 1 ==> ItemsReadBefore(items[1..], end)
    ensures ItemsReadBefore(items, end)
  {
    var v := items[0];
    var s := Print(v) + (MoreItems(items[1..]) + end);
    ItemsText(items, end);
    assert items == [v] + items[1..];
    if !Clean(v) {
      assert ReadItems(s).None?;
    } else if |items| == 1 {
      assert MoreItems(items[1..]) + end == end && items == [v];
      ItemsEnd(s, v, end);
    } else {
      var more := PrintItems(items[1..]) + end;
      ItemsText(items[1..], end);
      Regroup(", ", PrintItems(items[1..]), end);
      ItemsGoOn(s, v, more);
    }
  }

  lemma {:induction false} ValueReads(v: Value, rest: string)
    requires Delimited(rest) && Printable(v)
    ensures ReadsBackBefore(v, rest)
    decreases v, 0
  {
    match v
    case Text(t) => TextReads(t, rest);
    case Flag(b) => FlagReads(b, rest);
    case Number(n) => NumberReads(n, rest);
    case List(items) =>
      if items != [] {
        ItemsRead(items, "]" + rest);
      }
      ListReads(items, rest);
    case Table(entries) =>
      if entries != [] {
        EntriesRead(entries, rest);
      }
      TableReads(entries, rest);
  }

  lemma ListReads(items: seq<Value>, rest: string)
    requires Printable(List(items))
    requires items != [] ==> ItemsReadBefore(items, "]" + rest)
    ensures ReadsBackBefore(List(items), rest)
  {
    var inner := PrintItems(items) + ("]" + rest);
    assert Print(List(items)) + rest == "[" + inner;
    assert ("[" + inner)[1..] == inner && ("]" + rest)[1..] == rest;
    if items == [] {
      assert inner == "]" + rest;
    } else {
      ItemsText(items, "]" + rest);
    }
    SkipNone(inner);
  }

  lemma {:induction false} ItemsRead(items: seq<Value>, end: string)
    requires items != [] && Begins(end, ']') && Printable(List(items))
    ensures ItemsReadBefore(items, end)
    decreases items, 1
  {
    ValueReads(items[0], MoreItems(items[1..]) + end);
    if |items| > 1 {
      ItemsRead(items[1..], end);
    }
    ItemsStep(items, end);
  }

  // ---- Inline tables ----

  predicate EntriesReadBefore(entries: seq<Entry>, rest: string) {
    ReadEntries(PrintEntries(entries) + (" }" + rest)) == if CleanEntries(entries) then Some((entries, rest)) else None
  }

  lemma EntriesText(entries: seq<Entry>, end: string)
    requires entries != []
    ensures PrintEntries(entries) + end
      == "\"" + (PrintChars(entries[0].key)
           + "\"" + (" = " + (Print(entries[0].value) + (MoreEntries(entries[1..]) + end))))
    ensures PrintEntries(entries) != "" && PrintEntries(entries)[0] == '"'
  {
    var k, v, m := PrintChars(entries[0].key), Print(entries[0].value), MoreEntries(entries[1..]);
    EntryRegroup(k, v, m, end);
  }

  lemma EntryRegroup(k: string, v: string, m: string, end: string)
    ensures "\"" + k + "\"" + (" = " + (v + m)) + end == "\"" + (k + "\"" + (" = " + (v + (m + end))))
  {}

  lemma AssignedReads(s: string)
    requires s != "" && !Blank(s[0])
    ensures ReadAssigned(" = " + s) == ReadValue(s)
  {
    assert " = " + s == " " + ("= " + s);
    SkipOne("= " + s);
    assert ("= " + s)[1..] == " " + s;
    SkipOne(s);
  }

  lemma EntryFrom(s: string, t: string)
    requires t != "" && !Blank(t[0])
    requires ReadString(s).Some? ==> ReadString(s).value.1 == " = " + t
    ensures ReadEntry("\"" + s) ==
      if ReadString(s).None? || ReadValue(t).None? then None
      else Some((Entry(ReadString(s).value.0, ReadValue(t).value.0), ReadValue(t).value.1))
  {
    assert ("\"" + s)[1..] == s;
    AssignedReads(t);
  }

  /** An entry is read back from its text, or not at all if it is not clean. */
  lemma {:induction false} EntryReads(e: Entry, rest: string)
    requires ReadsBackBefore(e.value, rest) && !e.value.Other?
    ensures ReadEntry("\"" + (PrintChars(e.key) + "\"" + (" = " + (Print(e.value) + rest))))
      == if CleanEntry(e) then Some((e, rest)) else None
  {
    var t := Print(e.value) + rest;
    StringReads(e.key, " = " + t);
    PrintHead(e.value);
    EntryFrom(PrintChars(e.key) + "\"" + (" = " + t), t);
  }

  lemma EntriesEnd(s: string, e: Entry, rest: string)
    requires ReadEntry(s) == Some((e, " }" + rest))
    ensures ReadEntries(s) == Some(([e], rest))
  {
    assert " }" + rest == " " + ("}" + rest) && ("}" + rest)[1..] == rest;
    SkipOne("}" + rest);
  }

  lemma EntriesGoOn(s: string, e: Entry, more: string)
    requires ReadEntry(s) == Some((e, ", " + more)) && more != "" && !Blank(more[0])
    ensures var r := ReadEntries(more); ReadEntries(s) == if r.None? then None else Some(([e] + r.value.0, r.value.1))
  {
    SkipNone(", " + more);
    assert (", " + more)[1..] == " " + more;
    SkipOne(more);
  }

  lemma EntriesStep(entries: seq<Entry>, rest: string)
    requires entries != [] && !entries[0].value.Other?
    requires ReadsBackBefore(entries[0].value, MoreEntries(entries[1..]) + (" }" + rest))
    requires |entries| > 1 ==> EntriesReadBefore(entries[1..], rest)
    ensures EntriesReadBefore(entries, rest)
  {
    var e, end := entries[0], " }" + rest;
    var tail := MoreEntries(entries[1..]) + end;
    var s := "\"" + (PrintChars(e.key) + "\"" + (" = " + (Print(e.value) + tail)));
    EntriesText(entries, end);
    EntryReads(e, tail);
    CleanConcat(e, entries[1..]);
    assert entries == [e] + entries[1..];
    if !CleanEntry(e) {
      assert ReadEntries(s).None?;
    } else if |entries| == 1 {
      assert entries == [e] && tail == end;
      EntriesEnd(s, e, rest);
    } else {
      EntriesText(entries[1..], end);
      Regroup(", ", PrintEntries(entries[1..]), end);
      EntriesGoOn(s, e, PrintEntries(entries[1..]) + end);
    }
  }

  lemma CleanConcat(e: Entry, entries: seq<Entry>)
    ensures CleanEntries([e] + entries) <==> CleanEntry(e) && CleanEntries(entries)
  {
    var all := [e] + entries;
    assert all[0] == e && forall i | 0 <= i < |entries| :: all[i + 1] == entries[i];
  }

  lemma {:induction false} EntriesRead(entries: seq<Entry>, rest: string)
    requires entries != [] && Printable(Table(entries))
    ensures EntriesReadBefore(entries, rest)
    decreases entries, 1
  {
    ValueReads(entries[0].value, MoreEntries(entries[1..]) + (" }" + rest));
    if |entries| > 1 {
      EntriesRead(entries[1..], rest);
    }
    EntriesStep(entries, rest);
  }

  lemma TableOf(inner: string, rest: string)
    requires inner != "" && inner[0] == '"'
    ensures var r := ReadEntries(inner);
      ReadValue("{" + (" " + inner)) == if r.None? then None else Some((Table(r.value.0), r.value.1))
  {
    assert ("{" + (" " + inner))[1..] == " " + inner;
    SkipOne(inner);
  }

  lemma EmptyTable(rest: string)
    ensures ReadValue("{" + (" " + (" }" + rest))) == Some((Table([]), rest))
  {
    var inner := " " + (" }" + rest);
    assert ("{" + inner)[1..] == inner && " }" + rest == " " + ("}" + rest);
    SkipTwo("}" + rest);
    assert ("}" + rest)[1..] == rest;
  }

  lemma TableReads(entries: seq<Entry>, rest: string)
    requires entries != [] ==> EntriesReadBefore(entries, rest)
    ensures ReadsBackBefore(Table(entries), rest)
  {
    var inner := PrintEntries(entries) + (" }" + rest);
    assert Print(Table(entries)) + rest == "{" + (" " + inner);
    if entries == [] {
      assert inner == " }" + rest;
      EmptyTable(rest);
    } else {
      EntriesText(entries, " }" + rest);
      TableOf(inner, rest);
    }
  }

  lemma SkipTwo(s: string)
    requires s != "" && !Blank(s[0])
    ensures Skip(" " + (" " + s)) == s
  {
    assert (" " + (" " + s))[1..] == " " + s;
    SkipOne(s);
  }
}
