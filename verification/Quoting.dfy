/**
 * Words on a systemd unit line: how they are quoted, and how the line is read back by section
 * "Quoting" of systemd.syntax(7), by the doubled specifier and by the doubled variable sign.
 */
module Quoting {
  import opened Common
  import opened Text

  // ---- Writing ----

  /** Every occurrence of one character replaced. */
  function Replace(s: string, c: char, with_: string): string {
    if s == [] then [] else (if s[0] == c then with_ else [s[0]]) + Replace(s[1..], c, with_)
  }

  function Escape(value: string, exec: bool): string {
    var v := Replace(Replace(Replace(value, '%', "%%"), '\\', "\\\\"), '"', "\\\"");
    if exec then Replace(v, '$', "$$") else v
  }

  /** White space in all of Unicode. */
  predicate AnySpace(c: char) {
    || IsSpace(c) || c == '\U{85}' || c == '\U{A0}' || c == '\U{1680}' || '\U{2000}' <= c <= '\U{200A}'
    || c == '\U{2028}' || c == '\U{2029}' || c == '\U{202F}' || c == '\U{205F}' || c == '\U{3000}'
  }

  predicate Special(c: char) {
    AnySpace(c) || c == '"' || c == '\\'
  }

  predicate NeedsQuotes(value: string) {
    value == "" || exists i | 0 <= i < |value| :: Special(value[i])
  }

  function Quote(value: string, exec: bool): string {
    var v := Escape(value, exec);
    if NeedsQuotes(v) then "\"" + v + "\"" else v
  }

  function QuoteAll(words: seq<string>, exec: bool): seq<string> {
    if words == [] then [] else [Quote(words[0], exec)] + QuoteAll(words[1..], exec)
  }

  function Line(words: seq<string>, exec: bool): string {
    Spaced(QuoteAll(words, exec))
  }

  // ---- Reading ----

  predicate Blank(c: char) {
    c == ' ' || c == '\t' || c == '\n' || c == '\r'
  }

  predicate IsQuote(c: char) {
    c == '"' || c == '\''
  }

  /** The unit file ends a setting at the line feed. */
  function FirstLine(s: string): string {
    if s == [] || s[0] == '\n' then [] else [s[0]] + FirstLine(s[1..])
  }

  function Unescaped(c: char): Option<char> {
    match c
    case 'a' => Some('\U{7}') case 'b' => Some('\U{8}') case 'f' => Some('\U{c}') case 'n' => Some('\n')
    case 'r' => Some('\r') case 't' => Some('\t') case 'v' => Some('\U{b}') case 's' => Some(' ')
    case '\\' => Some('\\') case '"' => Some('"') case '\'' => Some('\'')
    case _ => None
  }

  /** One character of a word, escaped or not, and the text after it. */
  function ReadChar(s: string): (r: Option<(char, string)>)
    requires s != []
    ensures r.Some? ==> |r.value.1| < |s|
  {
    if s[0] != '\\' then Some((s[0], s[1..]))
    else if |s| == 1 || Unescaped(s[1]).None? then None
    else Some((Unescaped(s[1]).value, s[2..]))
  }

  /** Up to the closing quote, which must be there. */
  function ReadQuoted(s: string, quote: char): (r: Option<(string, string)>)
    ensures r.Some? ==> |r.value.1| < |s|
    decreases |s|
  {
    if s == [] then None
    else if s[0] == quote then Some(("", s[1..]))
    else
      match ReadChar(s)
      case None => None
      case Some(c) => Prepend(c.0, ReadQuoted(c.1, quote))
  }

  /** Up to the next blank; quotes may only wrap a whole word. */
  function ReadBare(s: string): (r: Option<(string, string)>)
    ensures r.Some? ==> |r.value.1| <= |s| && (s != [] && !Blank(s[0]) ==> |r.value.1| < |s|)
    decreases |s|
  {
    if s == [] || Blank(s[0]) then Some(("", s))
    else if IsQuote(s[0]) then None
    else
      match ReadChar(s)
      case None => None
      case Some(c) => Prepend(c.0, ReadBare(c.1))
  }

  /** A doubled sign is the sign itself; a single one would begin an expansion. */
  function Undouble(w: string, c: char): Option<string>
    decreases |w|
  {
    if w == [] then Some("")
    else if w[0] == c && (|w| == 1 || w[1] != c) then None
    else
      match Undouble(w[if w[0] == c then 2 else 1..], c)
      case None => None
      case Some(rest) => Some([w[0]] + rest)
  }

  function Expand(w: string, exec: bool): Option<string> {
    match Undouble(w, '%')
    case None => None
    case Some(v) => if exec then Undouble(v, '$') else Some(v)
  }

  /** The words of one setting; in a command line a lone semicolon ends the command. */
  function ReadWords(s: string, exec: bool): Option<seq<string>>
    decreases |s|
  {
    if s == [] then Some([])
    else if Blank(s[0]) then ReadWords(s[1..], exec)
    else if exec && s[0] == ';' && (|s| == 1 || Blank(s[1])) then Some([])
    else
      match if IsQuote(s[0]) then ReadQuoted(s[1..], s[0]) else ReadBare(s)
      case None => None
      case Some(word) =>
        if Expand(word.0, exec).None? || (word.1 != [] && !Blank(word.1[0])) then None
        else
          match ReadWords(word.1, exec)
          case None => None
          case Some(words) => Some([Expand(word.0, exec).value] + words)
  }

  function Read(text: string, exec: bool): Option<seq<string>> {
    ReadWords(FirstLine(text), exec)
  }

  // ---- The chained replacements are one map over the characters ----

  function EscapedChar(c: char, exec: bool): string {
    if c == '%' then "%%"
    else if c == '\\' then "\\\\"
    else if c == '"' then "\\\""
    else if c == '$' && exec then "$$"
    else [c]
  }

  function Escaped(value: string, exec: bool): string {
    if value == [] then [] else EscapedChar(value[0], exec) + Escaped(value[1..], exec)
  }

  lemma {:induction false} ReplaceAppends(a: string, b: string, c: char, with_: string)
    ensures Replace(a + b, c, with_) == Replace(a, c, with_) + Replace(b, c, with_)
  {
    if a == [] {
      assert a + b == b;
    } else {
      assert (a + b)[1..] == a[1..] + b;
      ReplaceAppends(a[1..], b, c, with_);
    }
  }

  lemma EscapeAppends(a: string, b: string, exec: bool)
    ensures Escape(a + b, exec) == Escape(a, exec) + Escape(b, exec)
  {
    var p, q := Replace(a, '%', "%%"), Replace(b, '%', "%%");
    var r, s := Replace(p, '\\', "\\\\"), Replace(q, '\\', "\\\\");
    ReplaceAppends(a, b, '%', "%%");
    ReplaceAppends(p, q, '\\', "\\\\");
    ReplaceAppends(r, s, '"', "\\\"");
    ReplaceAppends(Replace(r, '"', "\\\""), Replace(s, '"', "\\\""), '$', "$$");
  }

  lemma ReplaceOne(a: char, c: char, with_: string)
    ensures Replace([a], c, with_) == if a == c then with_ else [a]
  {
    assert [a][1..] == [];
  }

  lemma ReplaceTwo(a: char, b: char, c: char, with_: string)
    requires a != c
    ensures Replace([a, b], c, with_) == if b == c then [a] + with_ else [a, b]
  {
    assert [a, b][1..] == [b];
    ReplaceOne(b, c, with_);
  }

  lemma EscapeOne(c: char, exec: bool)
    ensures Escape([c], exec) == EscapedChar(c, exec)
  {
    ReplaceOne(c, '%', "%%");
    if c == '%' {
      ReplaceTwo('%', '%', '\\', "\\\\");
      ReplaceTwo('%', '%', '"', "\\\"");
      ReplaceTwo('%', '%', '$', "$$");
    } else {
      ReplaceOne(c, '\\', "\\\\");
      if c == '\\' {
        ReplaceTwo('\\', '\\', '"', "\\\"");
        ReplaceTwo('\\', '\\', '$', "$$");
      } else {
        ReplaceOne(c, '"', "\\\"");
        ReplaceTwo('\\', '"', '$', "$$");
        ReplaceOne(c, '$', "$$");
      }
    }
  }

  lemma {:induction false} EscapeIsPerChar(value: string, exec: bool)
    ensures Escape(value, exec) == Escaped(value, exec)
  {
    if value != [] {
      assert value == [value[0]] + value[1..];
      EscapeAppends([value[0]], value[1..], exec);
      EscapeOne(value[0], exec);
      EscapeIsPerChar(value[1..], exec);
    }
  }

  lemma QuoteIs(value: string, exec: bool)
    ensures Quote(value, exec) ==
      if NeedsQuotes(value) then "\"" + Escaped(value, exec) + "\"" else Escaped(value, exec)
  {
    EscapeIsPerChar(value, exec);
    EscapingKeepsSpecials(value, exec);
  }

  lemma {:induction false} EscapingKeepsSpecials(value: string, exec: bool)
    ensures NeedsQuotes(Escaped(value, exec)) <==> NeedsQuotes(value)
  {
    if value != [] {
      var first, rest := EscapedChar(value[0], exec), Escaped(value[1..], exec);
      assert first[0] == (if value[0] == '"' then '\\' else value[0]);
      if |value| == 1 {
        assert rest == [] && first + rest == first;
        if NeedsQuotes(first) {
          assert Special(value[0]);
        } else {
          assert !Special(first[0]);
        }
      } else {
        EscapingKeepsSpecials(value[1..], exec);
        SpecialsAppend(first, rest);
        SpecialsAppend([value[0]], value[1..]);
        assert value == [value[0]] + value[1..];
        assert [value[0]][0] == value[0];
        assert Special(value[0]) <==> Special(first[0]);
      }
    }
  }

  lemma SpecialsAppend(a: string, b: string)
    requires a != [] && b != []
    ensures NeedsQuotes(a + b) <==> NeedsQuotes(a) || NeedsQuotes(b)
  {
    forall i | 0 <= i < |a| && Special(a[i]) ensures NeedsQuotes(a + b) {
      assert (a + b)[i] == a[i];
    }
    forall i | 0 <= i < |b| && Special(b[i]) ensures NeedsQuotes(a + b) {
      assert (a + b)[|a| + i] == b[i];
    }
  }

  // ---- Reading back what was written ----

  function DoubledChar(c: char, exec: bool): string {
    if c == '%' || (c == '$' && exec) then [c, c] else [c]
  }

  /** What is left of the escapes once the quoting is removed. */
  function Doubled(w: string, exec: bool): string {
    if w == [] then [] else DoubledChar(w[0], exec) + Doubled(w[1..], exec)
  }

  function DollarsDoubled(w: string): string {
    if w == [] then [] else (if w[0] == '$' then "$$" else [w[0]]) + DollarsDoubled(w[1..])
  }

  function PrependTo(c: char, r: Option<string>): Option<string> {
    match r
    case None => None
    case Some(rest) => Some([c] + rest)
  }

  lemma UndoublePair(c: char, rest: string)
    ensures Undouble([c, c] + rest, c) == PrependTo(c, Undouble(rest, c))
  {
    assert ([c, c] + rest)[2..] == rest;
  }

  lemma UndoubleOther(c: char, d: char, rest: string)
    requires c != d
    ensures Undouble([d] + rest, c) == PrependTo(d, Undouble(rest, c))
  {
    assert ([d] + rest)[1..] == rest;
  }

  lemma UndoubleOthers(c: char, d: char, rest: string, v: string)
    requires c != d && Undouble(rest, c) == Some(v)
    ensures Undouble([d, d] + rest, c) == Some([d, d] + v)
  {
    UndoubleOther(c, d, rest);
    UndoubleOther(c, d, [d] + rest);
    assert [d, d] + rest == [d] + ([d] + rest) && [d, d] + v == [d] + ([d] + v);
  }

  lemma {:induction false} UndoublePercents(w: string, exec: bool)
    ensures Undouble(Doubled(w, exec), '%') == Some(if exec then DollarsDoubled(w) else w)
  {
    if w != [] {
      UndoublePercents(w[1..], exec);
      UndoubleHead(w[0], w[1..], exec);
      assert w == [w[0]] + w[1..];
    }
  }

  lemma UndoubleHead(c: char, w: string, exec: bool)
    requires Undouble(Doubled(w, exec), '%') == Some(if exec then DollarsDoubled(w) else w)
    ensures Undouble(DoubledChar(c, exec) + Doubled(w, exec), '%')
      == Some(if exec then (if c == '$' then "$$" else [c]) + DollarsDoubled(w) else [c] + w)
  {
    var rest := Doubled(w, exec);
    if c == '%' {
      UndoublePair('%', rest);
    } else if c == '$' && exec {
      UndoubleOthers('%', '$', rest, DollarsDoubled(w));
      assert "$$" == ['$', '$'];
    } else {
      UndoubleOther('%', c, rest);
    }
  }

  lemma {:induction false} UndoubleDollars(w: string)
    ensures Undouble(DollarsDoubled(w), '$') == Some(w)
  {
    if w != [] {
      UndoubleDollars(w[1..]);
      assert w == [w[0]] + w[1..];
      if w[0] == '$' {
        UndoublePair('$', DollarsDoubled(w[1..]));
        assert "$$" == ['$', '$'];
      } else {
        UndoubleOther('$', w[0], DollarsDoubled(w[1..]));
      }
    }
  }

  lemma ExpandDoubled(w: string, exec: bool)
    ensures Expand(Doubled(w, exec), exec) == Some(w)
  {
    UndoublePercents(w, exec);
    UndoubleDollars(w);
  }

  lemma {:induction false} QuotedReads(w: string, rest: string, exec: bool)
    ensures ReadQuoted(Escaped(w, exec) + "\"" + rest, '"') == Some((Doubled(w, exec), rest))
  {
    if w == [] {
      assert ([] + "\"" + rest)[1..] == rest;
    } else {
      QuotedReads(w[1..], rest, exec);
      var c, after := w[0], Escaped(w[1..], exec) + "\"" + rest;
      assert Escaped(w, exec) + "\"" + rest == EscapedChar(c, exec) + after;
      QuotedCharReads(c, after, exec);
    }
  }

  function PrependAll(s: string, r: Option<(string, string)>): Option<(string, string)> {
    match r
    case None => None
    case Some(word) => Some((s + word.0, word.1))
  }

  lemma PrependTwo(c: char, r: Option<(string, string)>)
    ensures Prepend(c, Prepend(c, r)) == PrependAll([c, c], r)
  {
    if r.Some? {
      assert [c] + ([c] + r.value.0) == [c, c] + r.value.0;
    }
  }

  lemma QuotedPlain(c: char, after: string)
    requires c != '"' && c != '\\'
    ensures ReadQuoted([c] + after, '"') == Prepend(c, ReadQuoted(after, '"'))
  {
    assert ([c] + after)[1..] == after;
  }

  lemma BarePlain(c: char, after: string)
    requires Plain(c)
    ensures ReadBare([c] + after) == Prepend(c, ReadBare(after))
  {
    assert ([c] + after)[1..] == after;
  }

  lemma TwoChars(c: char, after: string)
    ensures [c, c] + after == [c] + ([c] + after)
  {}

  lemma QuotedEscape(c: char, after: string)
    requires c == '"' || c == '\\'
    ensures ReadQuoted(['\\', c] + after, '"') == Prepend(c, ReadQuoted(after, '"'))
  {
    assert (['\\', c] + after)[2..] == after;
  }

  /** Reading one escaped character leaves the characters that stand for it and the text after it. */
  lemma QuotedCharReads(c: char, after: string, exec: bool)
    ensures ReadQuoted(EscapedChar(c, exec) + after, '"') == PrependAll(DoubledChar(c, exec), ReadQuoted(after, '"'))
  {
    var r := ReadQuoted(after, '"');
    if c == '\\' || c == '"' {
      QuotedEscape(c, after);
      assert EscapedChar(c, exec) == ['\\', c];
    } else {
      QuotedPlain(c, after);
      if c == '%' || (c == '$' && exec) {
        TwoChars(c, after);
        QuotedPlain(c, [c] + after);
        PrependTwo(c, r);
        assert EscapedChar(c, exec) == [c, c];
      }
    }
  }

  predicate Plain(c: char) {
    !Special(c) && c != '\''
  }

  lemma BareCharReads(c: char, after: string, exec: bool)
    requires Plain(c)
    ensures ReadBare(EscapedChar(c, exec) + after) == PrependAll(DoubledChar(c, exec), ReadBare(after))
  {
    BarePlain(c, after);
    if EscapedChar(c, exec) == [c, c] {
      TwoChars(c, after);
      BarePlain(c, [c] + after);
      PrependTwo(c, ReadBare(after));
    }
  }

  lemma {:induction false} BareReads(w: string, rest: string, exec: bool)
    requires forall i | 0 <= i < |w| :: Plain(w[i])
    requires rest == "" || Blank(rest[0])
    ensures ReadBare(Escaped(w, exec) + rest) == Some((Doubled(w, exec), rest))
  {
    if w == [] {
      assert [] + rest == rest;
    } else {
      BareReads(w[1..], rest, exec);
      assert Escaped(w, exec) + rest == EscapedChar(w[0], exec) + (Escaped(w[1..], exec) + rest);
      BareCharReads(w[0], Escaped(w[1..], exec) + rest, exec);
    }
  }

  // ---- Words that cannot be read back ----

  /** The words a line can carry: no line feed, a single quote only within quotes, no lone semicolon. */
  predicate Readable(w: string, exec: bool) {
    && '\n' !in w
    && ('\'' !in w || NeedsQuotes(w))
    && !(exec && w == ";")
  }

  lemma {:induction false} UnclosedFails(w: string, exec: bool)
    ensures ReadQuoted(Escaped(w, exec), '"').None?
  {
    if w != [] {
      UnclosedFails(w[1..], exec);
      QuotedCharReads(w[0], Escaped(w[1..], exec), exec);
    }
  }

  lemma {:induction false} FirstLineAppends(a: string, b: string)
    requires '\n' !in a
    ensures FirstLine(a + b) == a + FirstLine(b)
  {
    if a == [] {
      assert a + b == b;
    } else {
      assert (a + b)[1..] == a[1..] + b && a[0] != '\n';
      FirstLineAppends(a[1..], b);
    }
  }

  /** The part of a word before its first line feed. */
  function Cut(w: string): string {
    if w == [] || w[0] == '\n' then [] else [w[0]] + Cut(w[1..])
  }

  lemma EscapedHead(w: string, exec: bool, rest: string)
    requires w != []
    ensures Escaped(w, exec) + rest == EscapedChar(w[0], exec) + (Escaped(w[1..], exec) + rest)
  {}

  lemma {:induction false} LineEndsIn(w: string, exec: bool, rest: string)
    requires '\n' in w
    ensures FirstLine(Escaped(w, exec) + rest) == Escaped(Cut(w), exec)
  {
    EscapedHead(w, exec, rest);
    if w[0] != '\n' {
      LineEndsIn(w[1..], exec, rest);
      FirstLineAppends(EscapedChar(w[0], exec), Escaped(w[1..], exec) + rest);
      assert ([w[0]] + Cut(w[1..]))[1..] == Cut(w[1..]);
    }
  }

  // ---- The round trip ----

  predicate EndsWord(rest: string) {
    rest == "" || Blank(rest[0])
  }

  lemma BareWordIsPlain(w: string, exec: bool)
    requires !NeedsQuotes(w) && '\'' !in w
    ensures forall i | 0 <= i < |w| :: Plain(w[i])
  {
    forall i | 0 <= i < |w| ensures Plain(w[i]) {
      assert w[i] in w;
    }
  }

  /** What reading the rest of a line adds to the words before it. */
  function Cons(w: string, words: Option<seq<string>>): Option<seq<string>> {
    match words
    case None => None
    case Some(ws) => Some([w] + ws)
  }

  lemma QuoteRegroup(word: string, rest: string)
    ensures "\"" + word + "\"" + rest == "\"" + (word + "\"" + rest)
  {}

  lemma QuotedWordReads(w: string, rest: string, exec: bool)
    requires NeedsQuotes(w) && EndsWord(rest)
    ensures ReadWords(Quote(w, exec) + rest, exec) == Cons(w, ReadWords(rest, exec))
  {
    QuoteIs(w, exec);
    QuoteRegroup(Escaped(w, exec), rest);
    QuotedReads(w, rest, exec);
    ExpandDoubled(w, exec);
    OpenedReads(Escaped(w, exec) + "\"" + rest, exec);
  }

  lemma OpenedReads(s: string, exec: bool)
    requires var r := ReadQuoted(s, '"'); r.Some? && EndsWord(r.value.1) && Expand(r.value.0, exec).Some?
    ensures var r := ReadQuoted(s, '"').value;
      ReadWords("\"" + s, exec) == Cons(Expand(r.0, exec).value, ReadWords(r.1, exec))
  {
    assert ("\"" + s)[1..] == s;
  }

  lemma BareWordReads(w: string, rest: string, exec: bool)
    requires !NeedsQuotes(w) && '\'' !in w && !(exec && w == ";") && EndsWord(rest)
    ensures ReadWords(Quote(w, exec) + rest, exec) == Cons(w, ReadWords(rest, exec))
  {
    QuoteIs(w, exec);
    BareWordIsPlain(w, exec);
    BareReads(w, rest, exec);
    ExpandDoubled(w, exec);
    BareHead(w, rest, exec);
  }

  lemma BareHead(w: string, rest: string, exec: bool)
    requires w != "" && (forall i | 0 <= i < |w| :: Plain(w[i])) && !(exec && w == ";")
    ensures var s := Escaped(w, exec) + rest;
      s != "" && !Blank(s[0]) && !IsQuote(s[0]) && !(exec && s[0] == ';' && (|s| == 1 || Blank(s[1])))
  {
    assert Plain(w[0]);
    EscapedHead(w, exec, rest);
    if w[0] == ';' && |w| > 1 {
      assert Plain(w[1]);
      EscapedHead(w[1..], exec, rest);
    }
  }

  lemma WordReads(w: string, rest: string, exec: bool)
    requires Readable(w, exec) && EndsWord(rest)
    ensures ReadWords(Quote(w, exec) + rest, exec) == Cons(w, ReadWords(rest, exec))
  {
    if NeedsQuotes(w) {
      QuotedWordReads(w, rest, exec);
    } else {
      BareWordReads(w, rest, exec);
    }
  }

  predicate ReadsFirst(r: Option<seq<string>>, w: string) {
    r.Some? && r.value != [] && r.value[0] == w
  }

  lemma OpenedFails(u: string, exec: bool)
    ensures ReadWords("\"" + Escaped(u, exec), exec).None?
  {
    assert ("\"" + Escaped(u, exec))[1..] == Escaped(u, exec);
    UnclosedFails(u, exec);
  }

  lemma QuotesRegroup(v: string, rest: string)
    ensures "\"" + v + "\"" + rest == "\"" + (v + ("\"" + rest))
  {}

  lemma LineFeedFails(w: string, rest: string, exec: bool)
    requires '\n' in w
    ensures ReadWords(FirstLine(Quote(w, exec) + rest), exec).None?
  {
    var i :| 0 <= i < |w| && w[i] == '\n';
    assert Special(w[i]);
    QuoteIs(w, exec);
    QuotesRegroup(Escaped(w, exec), rest);
    FirstLineAppends("\"", Escaped(w, exec) + ("\"" + rest));
    LineEndsIn(w, exec, "\"" + rest);
    OpenedFails(Cut(w), exec);
  }

  lemma {:induction false} BareQuoteFails(w: string, rest: string, exec: bool)
    requires w != "" && !NeedsQuotes(w) && '\'' in w
    ensures ReadBare(Escaped(w, exec) + rest).None?
  {
    EscapedHead(w, exec, rest);
    assert !Special(w[0]);
    if w[0] != '\'' {
      assert '\'' in w[1..];
      forall i | 0 <= i < |w| - 1 ensures !Special(w[1..][i]) {
        assert !Special(w[i + 1]);
      }
      BareQuoteFails(w[1..], rest, exec);
      BareCharReads(w[0], Escaped(w[1..], exec) + rest, exec);
    }
  }

  /** What is read up to a single quote does not begin with one, unless it is escaped. */
  lemma SingleQuoted(s: string)
    requires s == "" || s[0] != '\\'
    ensures var r := ReadQuoted(s, '\''); r.Some? && r.value.0 != "" ==> r.value.0[0] != '\''
  {}

  lemma ExpansionKeepsHead(v: string, exec: bool)
    requires v == "" || v[0] != '\''
    ensures var e := Expand(v, exec); e.Some? && e.value != "" ==> e.value[0] != '\''
  {
    if v != "" && Undouble(v, '%').Some? {
      var u := Undouble(v, '%').value;
      assert u[0] == v[0];
    }
  }

  lemma LeadingQuoteFails(w: string, rest: string, exec: bool)
    requires !NeedsQuotes(w) && w[0] == '\'' && EndsWord(rest)
    ensures !ReadsFirst(ReadWords(Escaped(w, exec) + rest, exec), w)
  {
    EscapedHead(w, exec, rest);
    var s := Escaped(w, exec) + rest;
    var after := Escaped(w[1..], exec) + rest;
    assert s[0] == '\'' && s[1..] == after;
    if |w| > 1 {
      assert !Special(w[1]);
      EscapedHead(w[1..], exec, rest);
    }
    SingleQuoted(after);
    var word := ReadQuoted(after, '\'');
    if word.Some? {
      ExpansionKeepsHead(word.value.0, exec);
    }
  }

  lemma InnerQuoteFails(w: string, rest: string, exec: bool)
    requires !NeedsQuotes(w) && w[0] != '\'' && '\'' in w
    ensures ReadWords(Escaped(w, exec) + rest, exec).None?
  {
    BareQuoteFails(w, rest, exec);
    assert !Special(w[0]) && |w| > 1 && !Special(w[1]);
    EscapedHead(w, exec, rest);
    EscapedHead(w[1..], exec, rest);
  }

  lemma WordFails(w: string, rest: string, exec: bool)
    requires !Readable(w, exec) && '\n' !in w && EndsWord(rest)
    ensures !ReadsFirst(ReadWords(Quote(w, exec) + rest, exec), w)
  {
    QuoteIs(w, exec);
    if w == ";" {
      assert Escaped(w, exec) == ";" + Escaped(w[1..], exec) == ";";
    } else if w[0] == '\'' {
      LeadingQuoteFails(w, rest, exec);
    } else {
      InnerQuoteFails(w, rest, exec);
    }
  }

  function TailOf(words: seq<string>, exec: bool): string {
    if words == [] then "" else " " + Line(words, exec)
  }

  lemma SpacedHead(q: string, rest: seq<string>)
    ensures Spaced([q] + rest) == q + if rest == [] then "" else " " + Spaced(rest)
  {
    if rest != [] {
      assert ([q] + rest)[1..] == rest;
      assert q + " " + Spaced(rest) == q + (" " + Spaced(rest));
    }
  }

  lemma LineIs(words: seq<string>, exec: bool)
    requires words != []
    ensures Line(words, exec) == Quote(words[0], exec) + TailOf(words[1..], exec)
  {
    SpacedHead(Quote(words[0], exec), QuoteAll(words[1..], exec));
  }

  lemma {:induction false} NoLineFeedInEscaped(w: string, exec: bool)
    requires '\n' !in w
    ensures '\n' !in Escaped(w, exec)
  {
    if w != "" {
      assert w[0] in w;
      NoLineFeedInEscaped(w[1..], exec);
    }
  }

  lemma TailReads(words: seq<string>, exec: bool)
    ensures var tail := FirstLine(TailOf(words, exec));
      EndsWord(tail) && ReadWords(tail, exec) == if words == [] then Some([]) else Read(Line(words, exec), exec)
  {
    if words != [] {
      var s := FirstLine(Line(words, exec));
      FirstLineAppends(" ", Line(words, exec));
      assert (" " + s)[1..] == s;
    }
  }

  /** A readable word is read back before the rest of the line; any other spoils the line. */
  lemma FirstWord(words: seq<string>, exec: bool)
    requires words != []
    ensures var r, w := Read(Line(words, exec), exec), words[0];
      if Readable(w, exec) then r == Cons(w, if words[1..] == [] then Some([]) else Read(Line(words[1..], exec), exec))
      else !ReadsFirst(r, w)
  {
    var w, tail := words[0], TailOf(words[1..], exec);
    LineIs(words, exec);
    TailReads(words[1..], exec);
    if '\n' in w {
      LineFeedFails(w, tail, exec);
    } else {
      NoLineFeedInEscaped(w, exec);
      QuoteIs(w, exec);
      FirstLineAppends(Quote(w, exec), tail);
      if Readable(w, exec) {
        WordReads(w, FirstLine(tail), exec);
      } else {
        WordFails(w, FirstLine(tail), exec);
      }
    }
  }

  /** A line gives back its words if and only if every one of them is readable. */
  lemma {:induction false} LineRoundTrip(words: seq<string>, exec: bool)
    ensures Read(Line(words, exec), exec) == Some(words) <==> forall i | 0 <= i < |words| :: Readable(words[i], exec)
  {
    if words != [] {
      FirstWord(words, exec);
      LineRoundTrip(words[1..], exec);
      assert words == [words[0]] + words[1..];
      assert forall i | 0 <= i < |words[1..]| :: words[1..][i] == words[i + 1];
    }
  }
}
